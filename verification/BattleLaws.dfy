/** How large blows are, whom skills are aimed at, how long they last, and that nobody is passed over in a
    round. */
module BattleLaws {
  import opened Wrappers
  import opened Battle

  // ---------- The size of a blow ----------

  /** `lost` soldiers out of `number` are lost to a blow of this power against this cover: as many whole times as
      the cover goes into the power, unless the unit has fewer. */
  predicate Sized(lost: int, number: int, power: int, cover: int) {
    && 0 <= lost <= number
    && lost * cover <= power
    && (lost < number ==> power < (lost + 1) * cover)
  }

  function Power(r: Rules, a: Unit, b: Unit, force: int): int {
    force * a.soldiers * r.ratio(a.arms, b.arms)
  }

  function Cover(b: Unit): int {
    100 * (Guard(b) + 100)
  }

  lemma QuotCuts(n: int, d: int)
    requires n >= 0 && d > 0
    ensures Quot(n, d) * d <= n < (Quot(n, d) + 1) * d
  {
    assert n == d * (n / d) + n % d;
  }

  /** Whatever the force and the defence, as long as nothing is negative. */
  lemma LossSized(r: Rules, a: Unit, b: Unit, force: int, defense: int)
    requires r.ratio(a.arms, b.arms) >= 0 && a.soldiers >= 0 && b.soldiers >= 0 && force >= 0 && defense > -100
    ensures Sized(Loss(r, a, b, force, defense), b.soldiers, Power(r, a, b, force), 100 * (defense + 100))
  {
    var cover := 100 * (defense + 100);
    assert force * a.soldiers >= 0;
    assert Power(r, a, b, force) >= 0;
    var q := Quot(Power(r, a, b, force), cover);
    QuotCuts(Power(r, a, b, force), cover);
    QuotNonNegative(Power(r, a, b, force), cover);
    assert Damage(r, a, b, force, defense) == q;
    if q > b.soldiers {
      Fewer(b.soldiers, q, cover);
    }
  }

  lemma Fewer(a: int, b: int, d: int)
    requires a <= b && d > 0
    ensures a * d <= b * d
  {
  }

  /** In a sane battle the ordinary blow of a unit on the one opposite takes soldiers by its real force and the
      real defence of the other. */
  lemma BlowSized(r: Rules, ours: Row, theirs: Row, i: nat)
    requires i < |ours| && i < |theirs| && ours[i].Some? && theirs[i].Some? && theirs[i].value.soldiers > 0
    requires SaneRules(r) && SaneRow(ours) && SaneRow(theirs)
    ensures var x := Blow(r, ours, theirs, i);
      var a, b := ours[i].value, theirs[i].value;
      && x.1[i].Some? && Sized(b.soldiers - x.1[i].value.soldiers, b.soldiers, Power(r, a, b, Might(a)), Cover(b))
      && x.2 == b.soldiers - x.1[i].value.soldiers
      && x.0 == ours[i := Some(a.(exp := a.exp + 5 * x.2))]
      && x.1 == theirs[i := x.1[i]]
  {
    BonusMild(ours[i].value.skills, FORCE);
    BonusMild(theirs[i].value.skills, DEFENSE);
    LossSized(r, ours[i].value, theirs[i].value, Might(ours[i].value), Guard(theirs[i].value));
  }

  /** `force` is `v` percent of the real force. */
  predicate Percent(force: int, might: int, v: int) {
    force * 100 <= might * v < (force + 1) * 100
  }

  /** What a damaging effect of value `v` does to a row: every standing unit of the general it is aimed at loses
      soldiers by `v` percent of the real force, and nobody else any. */
  ghost predicate HurtBySize(r: Rules, a: Unit, row: Row, row': Row, to: int, v: int, force: int, k: nat) {
    && |row'| == |row|
    && forall p :: k <= p < |row| ==>
         && (!IsTarget(row[p], to) ==> row'[p] == row[p])
         && (IsTarget(row[p], to) ==>
               && row'[p].Some?
               && row'[p].value == row[p].value.(soldiers := row'[p].value.soldiers)
               && Sized(row[p].value.soldiers - row'[p].value.soldiers, row[p].value.soldiers,
                        Power(r, a, row[p].value, force), Cover(row[p].value)))
  }

  lemma {:induction false} SkillBlowSized(r: Rules, a: Unit, row: Row, to: int, v: int, k: nat)
    requires k <= |row| && SaneRules(r) && SaneUnit(a) && SaneRow(row) && v >= 0
    ensures exists force :: Percent(force, Might(a), v) && HurtBySize(r, a, row, HurtTarget(r, a, row, to, v, k).1, to, v, force, k)
  {
    var force := Quot(Might(a) * v, 100);
    SaneForce(a, v);
    BonusMild(a.skills, FORCE);
    assert Might(a) * v >= 0;
    QuotCuts(Might(a) * v, 100);
    HurtSized(r, a, row, to, v, k);
    assert Percent(force, Might(a), v);
  }

  lemma {:induction false} HurtSized(r: Rules, a: Unit, row: Row, to: int, v: int, k: nat)
    requires k <= |row| && SaneRules(r) && SaneUnit(a) && SaneRow(row) && v >= 0
    ensures HurtBySize(r, a, row, HurtTarget(r, a, row, to, v, k).1, to, v, Quot(Might(a) * v, 100), k)
    ensures forall p :: 0 <= p < k ==> HurtTarget(r, a, row, to, v, k).1[p] == row[p]
    decreases |row| - k
  {
    if k == |row| {
    } else if !IsTarget(row[k], to) {
      HurtSized(r, a, row, to, v, k + 1);
    } else {
      var force := Quot(Might(a) * v, 100);
      var (a1, row1, n) := Strike(r, a, row, k, force);
      SaneForce(a, v);
      BonusMild(row[k].value.skills, DEFENSE);
      LossSized(r, a, row[k].value, force, Guard(row[k].value));
      assert SaneRow(row1);
      assert Might(a1) == Might(a);
      HurtSized(r, a1, row1, to, v, k + 1);
      SizedFirst(r, a, row, k, a1, row1, HurtTarget(r, a1, row1, to, v, k + 1).1, to, v, force);
    }
  }

  /** One more place: the first is as the blow has left it, and the others were hurt by the same force. */
  lemma SizedFirst(r: Rules, a: Unit, row: Row, k: nat, a1: Unit, row1: Row, row2: Row, to: int, v: int, force: int)
    requires k < |row| == |row1| && IsTarget(row[k], to) && row1 == row[k := row1[k]]
    requires a1 == a.(exp := a1.exp) && HurtBySize(r, a1, row1, row2, to, v, force, k + 1) && row2[k] == row1[k]
    requires row1[k].Some? && row1[k].value == row[k].value.(soldiers := row1[k].value.soldiers)
    requires Sized(row[k].value.soldiers - row1[k].value.soldiers, row[k].value.soldiers,
                   Power(r, a, row[k].value, force), Cover(row[k].value))
    ensures HurtBySize(r, a, row, row2, to, v, force, k)
  {
    assert forall b: Unit :: Power(r, a1, b, force) == Power(r, a, b, force);
  }

  /** What two lists of skills add is what each adds, and a skill with one effect adds its value to the attribute
      that effect is for and to no other. */
  lemma {:induction false} BonusAdds(s: seq<Active>, t: seq<Active>, kind: int)
    ensures Bonus(s + t, kind) == Bonus(s, kind) + Bonus(t, kind)
    decreases |t|
  {
    if t == [] {
      assert s + t == s;
    } else {
      assert (s + t)[..|s + t| - 1] == s + t[..|t| - 1];
      BonusAdds(s, t[..|t| - 1], kind);
    }
  }

  lemma BonusOfOne(a: Active, kind: int, effect: int, value: int)
    requires a.conf.effects == [effect] && a.conf.levels[a.lv - 1].values == [value]
    ensures Bonus([a], kind) == if effect == kind then value else 0
  {
    assert Bonus([a][..0], kind) == 0;
    assert EffectBonus([effect][..0], [value][..0], kind) == 0;
  }

  // ---------- Whom a skill is aimed at ----------

  function StandingPlaces(row: Row): set<nat> {
    set p: nat | p < |row| && Standing(row[p])
  }

  function StandingUpTo(row: Row, n: nat): set<nat>
    requires n <= |row|
  {
    set p: nat | p < n && Standing(row[p])
  }

  lemma OneMoreStanding(row: Row, n: nat)
    requires n < |row|
    ensures StandingUpTo(row, n + 1) == StandingUpTo(row, n) + (if Standing(row[n]) then {n} else {})
    ensures n !in StandingUpTo(row, n)
  {
  }

  lemma {:induction false} StandingCount(row: Row, n: nat)
    requires n <= |row|
    ensures |StandingUpTo(row, n)| == |Places(row, n)|
  {
    if n > 0 {
      StandingCount(row, n - 1);
      OneMoreStanding(row, n - 1);
    }
  }

  /** The most units a target of this sort takes in, and whether they are enemies. */
  function Reach(target: Target, row: Row): nat {
    match target
    case OurSingle => 1
    case EnemySingle => 1
    case OurMostTwo => 2
    case EnemyMostTwo => 2
    case OurMostThree => 3
    case EnemyMostThree => 3
    case OurAll => |row|
    case EnemyAll => |row|
    case _ => 0
  }

  predicate Hostile(target: Target) {
    target in {EnemySingle, EnemyMostTwo, EnemyMostThree, EnemyAll}
  }

  /** The ids are those of as many different standing units of the row as the target takes in, or of all if there
      are fewer. */
  ghost predicate AimsAt(ids: seq<int>, row: Row, most: nat) {
    |ids| == Min(most, |StandingPlaces(row)|) && exists places: seq<nat> :: DrawnAt(ids, row, places)
  }

  ghost predicate DrawnAt(ids: seq<int>, row: Row, places: seq<nat>) {
    && |places| == |ids| && NoDup(places)
    && forall j :: 0 <= j < |ids| ==> places[j] in StandingPlaces(row) && row[places[j]].value.id == ids[j]
  }

  lemma RandomAims(row: Row, n: nat, shuffle: Shuffle)
    ensures AimsAt(Ids(row, RandomPlaces(row, n, shuffle)), row, n)
  {
    var places, ids := RandomPlaces(row, n, shuffle), Ids(row, RandomPlaces(row, n, shuffle));
    StandingCount(row, |row|);
    assert StandingUpTo(row, |row|) == StandingPlaces(row);
    assert DrawnAt(ids, row, places);
  }

  /** A skill is aimed at its owner, at nobody, or at standing units of the side its target names. */
  lemma AimMeans(u: Unit, our: Row, enemy: Row, target: Target, shuffle: Shuffle)
    ensures var (ids, isEnemy) := Aim(u, our, enemy, target, shuffle);
      && isEnemy == Hostile(target)
      && (target == MySelf ==> ids == [u.id])
      && (target == NoTarget ==> ids == [])
      && (target != MySelf && target != NoTarget ==>
            AimsAt(ids, if Hostile(target) then enemy else our, Reach(target, if Hostile(target) then enemy else our)))
  {
    match target
    case OurSingle => RandomAims(our, 1, shuffle);
    case OurMostTwo => RandomAims(our, 2, shuffle);
    case OurMostThree => RandomAims(our, 3, shuffle);
    case OurAll => RandomAims(our, |our|, shuffle);
    case EnemySingle => RandomAims(enemy, 1, shuffle);
    case EnemyMostTwo => RandomAims(enemy, 2, shuffle);
    case EnemyMostThree => RandomAims(enemy, 3, shuffle);
    case EnemyAll => RandomAims(enemy, |enemy|, shuffle);
    case _ =>
  }

  // ---------- Which skills go off ----------

  /** The skill is one that goes off in this phase, given the chance. */
  predicate Eligible(s: Learnt, after: bool) {
    s.id != 0 && s.conf.Some? && FiresOn(s.conf.value, after) && 1 <= s.lv <= |s.conf.value.levels|
  }

  /** The rolls below `n` on which the skill goes off. */
  function Rolls(s: Learnt, after: bool, n: nat): set<int> {
    set roll: int | 0 <= roll < n && Fires(s, after, roll)
  }

  lemma {:induction false} RollsCounted(s: Learnt, after: bool, n: nat)
    requires Eligible(s, after) && n <= 100
    ensures var p := s.conf.value.levels[s.lv - 1].probability;
      |Rolls(s, after, n)| == if n + p <= 100 then 0 else if p >= 100 then n else n + p - 100
  {
    if n == 0 {
      assert Rolls(s, after, 0) == {};
    } else {
      RollsCounted(s, after, n - 1);
      assert Rolls(s, after, n) == Rolls(s, after, n - 1) + if Fires(s, after, n - 1) then {n - 1} else {};
    }
  }

  /** Of a hundred equally likely rolls an eligible skill goes off on as many as its probability says, never
      fewer than none or more than all, and one that is not eligible on none. */
  lemma FiresByProbability(s: Learnt, after: bool)
    ensures !Eligible(s, after) ==> Rolls(s, after, 100) == {}
    ensures Eligible(s, after) ==>
      var p := s.conf.value.levels[s.lv - 1].probability;
      |Rolls(s, after, 100)| == if p <= 0 then 0 else if p >= 100 then 100 else p
  {
    if Eligible(s, after) {
      RollsCounted(s, after, 100);
    }
  }

  /** Every skill goes off either before or after a hit. */
  lemma OnePhase(c: Conf)
    ensures FiresOn(c, true) != FiresOn(c, false)
    ensures FiresOn(c, true) <==> c.trigger in {Passive, AddAttack}
  {
  }

  predicate SetOff(t: Triggered, u: Unit, our: Row, enemy: Row, after: bool, d: Dice, i: nat) {
    && i < |u.learnt| && Fires(u.learnt[i], after, d.roll(i))
    && t.active == RawActive(u.learnt[i].conf.value, u.learnt[i].lv, u.learnt[i].conf.value.duration)
    && (t.toId, t.isEnemy) == Aim(u, our, enemy, u.learnt[i].conf.value.target, d.shuffle(i))
  }

  lemma TriggeredIsSetOff(u: Unit, our: Row, enemy: Row, after: bool, d: Dice, i: nat)
    requires i < |u.learnt| && Fires(u.learnt[i], after, d.roll(i))
    ensures SetOff(Trigger1(u, our, enemy, u.learnt[i], d.shuffle(i)), u, our, enemy, after, d, i)
  {
  }

  /** The places of the first `n` learnt skills that go off. */
  function GoingOff(u: Unit, after: bool, d: Dice, n: nat): (which: seq<nat>)
    requires n <= |u.learnt|
    ensures forall i: nat :: i in which <==> i < n && Fires(u.learnt[i], after, d.roll(i))
    ensures forall k :: 0 <= k < |which| ==> which[k] < n && Fires(u.learnt[which[k]], after, d.roll(which[k]))
    ensures forall k, l :: 0 <= k < l < |which| ==> which[k] < which[l]
  {
    if n == 0 then []
    else
      var before := GoingOff(u, after, d, n - 1);
      if Fires(u.learnt[n - 1], after, d.roll(n - 1)) then before + [n - 1] else before
  }

  /** The skills set off are those learnt ones that go off, each once, in order, at their level, for the
      configured duration and with their aim. */
  lemma {:induction false} SetOffExactly(u: Unit, our: Row, enemy: Row, after: bool, d: Dice, n: nat)
    requires n <= |u.learnt|
    ensures var ts, which := Triggers(u, our, enemy, after, d, n), GoingOff(u, after, d, n);
      |ts| == |which| && forall k :: 0 <= k < |ts| ==> SetOff(ts[k], u, our, enemy, after, d, which[k])
  {
    if n > 0 {
      SetOffExactly(u, our, enemy, after, d, n - 1);
      if Fires(u.learnt[n - 1], after, d.roll(n - 1)) {
        TriggeredIsSetOff(u, our, enemy, after, d, n - 1);
      }
    }
  }

  /** The list has the learnt skills of `u` that go off in this phase, each once and in order. */
  ghost predicate Logged(used: seq<Triggered>, u: Unit, after: bool, d: Dice) {
    var which := GoingOff(u, after, d, |u.learnt|);
    && |used| == |which|
    && forall k :: 0 <= k < |used| ==> used[k].active.conf == u.learnt[which[k]].conf.value
  }

  lemma {:induction false} UsedKeepsSkills(r: Rules, a: Unit, row: Row, ts: seq<Triggered>)
    ensures var used := SkillKill(r, a, row, ts).2;
      forall k :: 0 <= k < |ts| ==> used[k].active == ts[k].active
    decreases |ts|
  {
    if ts != [] {
      var t := ts[0];
      var (a1, row1, kill) := HurtEffects(r, a, row, t.active, t.toId, 0, Zeros(|t.toId|));
      UsedKeepsSkills(r, a1, row1, ts[1..]);
      var rest := SkillKill(r, a1, row1, ts[1..]).2;
      assert SkillKill(r, a, row, ts).2 == [t.(kill := kill)] + rest;
    }
  }

  lemma {:induction false} SameLearntGoOff(u: Unit, u': Unit, after: bool, d: Dice, n: nat)
    requires u.learnt == u'.learnt && n <= |u.learnt|
    ensures GoingOff(u, after, d, n) == GoingOff(u', after, d, n)
  {
    if n > 0 {
      SameLearntGoOff(u, u', after, d, n - 1);
    }
  }

  lemma PhaseLogged(r: Rules, ours: Row, theirs: Row, i: nat, our: Row, enemy: Row, after: bool, d: Dice, u: Unit)
    requires i < |ours| && ours[i].Some? && ours[i].value.learnt == u.learnt
    ensures Logged(SkillPhase(r, ours, theirs, i, our, enemy, after, d).2, u, after, d)
  {
    var a := ours[i].value;
    var ts := Triggers(a, our, enemy, after, d, |a.learnt|);
    SetOffExactly(a, our, enemy, after, d, |a.learnt|);
    UsedKeepsSkills(r, a.(skills := a.skills + Carried(ts)), theirs, ts);
    SameLearntGoOff(a, u, after, d, |u.learnt|);
  }

  /** No skill that goes off is passed over: the log of a hit has those of the unit that hits before it, and,
      unless the battle is over, those of both units after it. */
  lemma HitUsesEverySkill(r: Rules, ours: Row, theirs: Row, i: nat, d: HitDice)
    requires i < |ours| && i < |theirs| && ours[i].Some? && theirs[i].Some?
    ensures var e := Hit(r, ours, theirs, i, d);
      && Logged(e.log.aBefore, ours[i].value, false, d.before)
      && (!e.over ==> Logged(e.log.aAfter, ours[i].value, true, d.after)
                      && Logged(e.log.bAfter, theirs[i].value, true, d.counter))
  {
    var h := OpenHit(r, ours, theirs, i, d);
    PhaseLogged(r, ours, theirs, i, ours, theirs, false, d.before, ours[i].value);
    assert SameUnit(ours[i], h.ours[i]) && SameUnit(theirs[i], h.theirs[i]);
    if !h.over {
      AnswersLogged(r, h.ours, h.theirs, i, d, ours[i].value, theirs[i].value);
    }
  }

  lemma AnswersLogged(r: Rules, ours: Row, theirs: Row, i: nat, d: HitDice, u: Unit, v: Unit)
    requires i < |ours| && i < |theirs| && ours[i].Some? && theirs[i].Some?
    requires ours[i].value.learnt == u.learnt && theirs[i].value.learnt == v.learnt
    ensures var (ours1, theirs1, after) := SkillPhase(r, ours, theirs, i, ours, theirs, true, d.after);
      && Logged(after, u, true, d.after)
      && i < |theirs1| && theirs1[i].Some?
      && Logged(SkillPhase(r, theirs1, ours1, i, ours1, theirs1, true, d.counter).2, v, true, d.counter)
  {
    var (ours1, theirs1, after) := SkillPhase(r, ours, theirs, i, ours, theirs, true, d.after);
    PhaseLogged(r, ours, theirs, i, ours, theirs, true, d.after, u);
    assert SameUnit(theirs[i], theirs1[i]);
    PhaseLogged(r, theirs1, ours1, i, ours1, theirs1, true, d.counter, v);
  }

  // ---------- How long a skill lasts ----------

  /** The skills a unit carries after `n` ends of rounds. */
  function AgedTimes(skills: seq<Active>, n: nat): seq<Active> {
    if n == 0 then skills else Aged(AgedTimes(skills, n - 1))
  }

  /** The skills with more than `n` rounds to go, in order, each with `n` fewer. */
  function Outlasting(skills: seq<Active>, n: nat): seq<Active> {
    if skills == [] then []
    else
      (if skills[0].duration > n then [Remaining(skills[0], n)] else []) + Outlasting(skills[1..], n)
  }

  lemma {:induction false} AgedFirst(skills: seq<Active>)
    requires skills != []
    ensures Aged(skills) == (if skills[0].duration > 1 then [Older(skills[0])] else []) + Aged(skills[1..])
  {
    if |skills| > 1 {
      AgedFirst(skills[..|skills| - 1]);
      assert skills[1..][..|skills| - 2] == skills[..|skills| - 1][1..];
    } else {
      assert skills[..0] == [] && skills[1..] == [];
      assert Aged([]) == [];
    }
  }

  lemma AgedCons(t: Active, skills: seq<Active>)
    ensures Aged([t] + skills) == (if t.duration > 1 then [Older(t)] else []) + Aged(skills)
  {
    AgedFirst([t] + skills);
    assert ([t] + skills)[1..] == skills;
  }

  function Remaining(t: Active, n: nat): Active {
    RawActive(t.conf, t.lv, t.duration - n)
  }

  lemma {:induction false} AgedOutlasting(skills: seq<Active>, n: nat)
    ensures Aged(Outlasting(skills, n)) == Outlasting(skills, n + 1)
    decreases |skills|
  {
    if skills != [] {
      AgedOutlasting(skills[1..], n);
      var t, tail := skills[0], Outlasting(skills[1..], n);
      if t.duration > n {
        AgedCons(Remaining(t, n), tail);
        assert Older(Remaining(t, n)) == Remaining(t, n + 1);
        assert Outlasting(skills, n) == [Remaining(t, n)] + tail;
      } else {
        assert Outlasting(skills, n) == tail;
      }
    }
  }

  lemma {:induction false} LastingIsOutlasting(skills: seq<Active>)
    ensures Lasting(skills) == Outlasting(skills, 0)
    decreases |skills|
  {
    if skills != [] {
      var last, rest := skills[|skills| - 1], skills[..|skills| - 1];
      LastingIsOutlasting(rest);
      OutlastingLast(rest, last, 0);
      assert skills == rest + [last];
      assert Remaining(last, 0) == last;
      assert Lasting(skills) == Lasting(rest) + if last.duration > 0 then [last] else [];
    }
  }

  lemma {:induction false} OutlastingLast(skills: seq<Active>, t: Active, n: nat)
    ensures Outlasting(skills + [t], n) == Outlasting(skills, n) + if t.duration > n then [Remaining(t, n)] else []
    decreases |skills|
  {
    if skills == [] {
      assert [t][1..] == [] && skills + [t] == [t];
    } else {
      assert (skills + [t])[1..] == skills[1..] + [t];
      OutlastingLast(skills[1..], t, n);
    }
  }

  lemma OneRoundLess(carried: seq<Active>, skills: seq<Active>, m: nat)
    requires AgedTimes(carried, m) == Outlasting(skills, m)
    ensures AgedTimes(carried, m + 1) == Outlasting(skills, m + 1)
  {
    AgedOutlasting(skills, m);
  }

  lemma {:induction false} CarriedLasts(carried: seq<Active>, skills: seq<Active>, n: nat)
    requires carried == Outlasting(skills, 0)
    ensures AgedTimes(carried, n) == Outlasting(skills, n)
  {
    if n > 0 {
      CarriedLasts(carried, skills, n - 1);
      OneRoundLess(carried, skills, n - 1);
    }
  }

  /** A skill is carried for as many rounds as its duration says: after a blow those without duration go, and
      after `n` ends of rounds exactly those with more than `n` rounds to go are left. */
  lemma SkillsLastTheirDuration(skills: seq<Active>, n: nat)
    ensures AgedTimes(Lasting(skills), n) == Outlasting(skills, n)
  {
    LastingIsOutlasting(skills);
    CarriedLasts(Lasting(skills), skills, n);
  }

  // ---------- Everybody gets a turn ----------

  /** The log has a hit of the one on the other. */
  predicate Struck(log: seq<HitLog>, aId: int, dId: int) {
    exists k :: 0 <= k < |log| && log[k].aId == aId && log[k].dId == dId
  }

  predicate Stands(row: Row, k: nat) {
    k < |row| && Standing(row[k])
  }

  ghost predicate SaneRows(r: Rules, ours: Row, theirs: Row) {
    SaneRules(r) && SaneRow(ours) && SaneRow(theirs)
  }

  lemma StoodBefore(row: Row, row': Row, k: nat)
    requires NoGain(row, row') && SameUnits(row, row') && Stands(row', k)
    ensures Stands(row, k) && row[k].value.id == row'[k].value.id
  {
    assert SameUnit(row[k], row'[k]);
  }

  /** A hit after which the unit hit stands has struck it, and says so. */
  lemma HitSaysWhom(r: Rules, ours: Row, theirs: Row, i: nat, d: HitDice)
    requires i < |ours| && i < |theirs| && ours[i].Some? && theirs[i].Some? && SaneRows(r, ours, theirs)
    requires Stands(Hit(r, ours, theirs, i, d).theirs, i)
    ensures var h := Hit(r, ours, theirs, i, d).log; h.aId == ours[i].value.id && h.dId == theirs[i].value.id
  {
    var e := OpenHit(r, ours, theirs, i, d);
    var (ours1, theirs1, _) := SkillPhase(r, ours, theirs, i, ours, theirs, false, d.before);
    assert Waned(ours, theirs, ours1, theirs1);
    OpenedStood(r, ours, theirs, i, d);
  }

  lemma OpenedStood(r: Rules, ours: Row, theirs: Row, i: nat, d: HitDice)
    requires i < |ours| && i < |theirs| && ours[i].Some? && theirs[i].Some? && SaneRows(r, ours, theirs)
    requires Stands(Hit(r, ours, theirs, i, d).theirs, i)
    ensures var (ours1, theirs1, _) := SkillPhase(r, ours, theirs, i, ours, theirs, false, d.before); Stands(theirs1, i)
  {
    var (ours1, theirs1, _) := SkillPhase(r, ours, theirs, i, ours, theirs, false, d.before);
    var h := OpenHit(r, ours, theirs, i, d);
    if !h.over {
      AnswersStood(r, h.ours, h.theirs, i, d);
    }
    assert Stands(h.theirs, i);
    var (ours2, theirs2, _) := Blow(r, ours1, theirs1, i);
    assert h.theirs == CheckHit(theirs2, i);
    StoodBefore(theirs2, h.theirs, i);
    StoodBefore(theirs1, theirs2, i);
  }

  lemma AnswersStood(r: Rules, ours: Row, theirs: Row, i: nat, d: HitDice)
    requires i < |ours| && i < |theirs| && ours[i].Some? && theirs[i].Some? && SaneRows(r, ours, theirs)
    requires var (ours1, theirs1, after) := SkillPhase(r, ours, theirs, i, ours, theirs, true, d.after);
      Stands(SkillPhase(r, theirs1, ours1, i, ours1, theirs1, true, d.counter).0, i)
    ensures Stands(theirs, i)
  {
    var (ours1, theirs1, after) := SkillPhase(r, ours, theirs, i, ours, theirs, true, d.after);
    var (theirs2, ours2, counter) := SkillPhase(r, theirs1, ours1, i, ours1, theirs1, true, d.counter);
    StoodBefore(theirs1, theirs2, i);
    StoodBefore(theirs, theirs1, i);
  }

  lemma PlaceKeeps(r: Rules, ours: Row, theirs: Row, i: nat, log: seq<HitLog>, d: RoundDice)
    requires i < |ours| == |theirs| && SaneRows(r, ours, theirs)
    ensures var p := Place(r, ours, theirs, i, log, d);
      Kept(ours, theirs, p.ours, p.theirs) && (!p.over ==> p.log.Some? && log <= p.log.value)
  {
    PlaceFair(r, ours, theirs, i, log, d);
  }

  /** The same units, none with more soldiers. */
  ghost predicate Kept(ours: Row, theirs: Row, ours': Row, theirs': Row) {
    SameUnits(ours, ours') && SameUnits(theirs, theirs') && Waned(ours, theirs, ours', theirs')
  }

  lemma StoodBoth(ours: Row, theirs: Row, ours': Row, theirs': Row, k: nat)
    requires Kept(ours, theirs, ours', theirs') && Stands(ours', k) && Stands(theirs', k)
    ensures Stands(ours, k) && Stands(theirs, k)
  {
    StoodBefore(ours, ours', k);
    StoodBefore(theirs, theirs', k);
  }

  lemma BothHit(r: Rules, ours: Row, theirs: Row, i: nat, log: seq<HitLog>, d: RoundDice)
    requires i < |ours| == |theirs| && SaneRows(r, ours, theirs) && Stands(ours, i) && Stands(theirs, i)
    requires var p := Place(r, ours, theirs, i, log, d); Stands(p.ours, i) && Stands(p.theirs, i)
    ensures var p := Place(r, ours, theirs, i, log, d); p.log.Some? && Exchange(p.log.value, ours, theirs, i)
  {
    var h := Hit(r, ours, theirs, i, d.hits(i));
    HitIsFair(r, ours, theirs, i, d.hits(i));
    assert SameUnit(ours[i], h.ours[i]) && SameUnit(theirs[i], h.theirs[i]);
    if !(h.over || h.theirs[i].value.soldiers == 0 || h.ours[i].value.soldiers == 0) {
      HitSaysWhom(r, ours, theirs, i, d.hits(i));
      BothHitThen(r, h.ours, h.theirs, i, log, h.log, d, ours, theirs);
    }
  }

  /** The unit hit strikes back, and with the hit before it that makes an exchange. */
  lemma BothHitThen(
      r: Rules, ours: Row, theirs: Row, i: nat, log: seq<HitLog>, h: HitLog, d: RoundDice, ours0: Row, theirs0: Row)
    requires i < |ours| == |theirs| && SaneRows(r, ours, theirs) && Stands(ours, i) && Stands(theirs, i)
    requires SameUnits(ours0, ours) && SameUnits(theirs0, theirs) && ours0[i].Some? && theirs0[i].Some?
    requires h.aId == ours0[i].value.id && h.dId == theirs0[i].value.id
    requires Stands(Reply(r, ours, theirs, i, log + [h], d).ours, i)
    ensures Exchange(Reply(r, ours, theirs, i, log + [h], d).log.value, ours0, theirs0, i)
  {
    var b := Hit(r, theirs, ours, i, d.replies(i));
    HitSaysWhom(r, theirs, ours, i, d.replies(i));
    assert SameUnit(ours0[i], ours[i]) && SameUnit(theirs0[i], theirs[i]);
    var full := log + [h] + [b.log];
    assert Reply(r, ours, theirs, i, log + [h], d).log == Some(full);
    assert full[|log|] == h && full[|log| + 1] == b.log;
  }

  /** The two units at place `k` have hit each other. */
  predicate Exchange(log: seq<HitLog>, ours: Row, theirs: Row, k: nat) {
    && k < |ours| && k < |theirs| && ours[k].Some? && theirs[k].Some?
    && Struck(log, ours[k].value.id, theirs[k].value.id) && Struck(log, theirs[k].value.id, ours[k].value.id)
  }

  lemma ExchangeStays(log: seq<HitLog>, log': seq<HitLog>, o: Row, t: Row, o': Row, t': Row, k: nat)
    requires log <= log' && SameUnits(o, o') && SameUnits(t, t')
    ensures Exchange(log, o, t, k) ==> Exchange(log', o, t, k)
    ensures Exchange(log, o', t', k) ==> Exchange(log, o, t, k)
  {
    if Exchange(log, o, t, k) {
      var i :| 0 <= i < |log| && log[i].aId == o[k].value.id && log[i].dId == t[k].value.id;
      assert log'[i] == log[i];
      var j :| 0 <= j < |log| && log[j].aId == t[k].value.id && log[j].dId == o[k].value.id;
      assert log'[j] == log[j];
    }
    if Exchange(log, o', t', k) {
      assert SameUnit(o[k], o'[k]) && SameUnit(t[k], t'[k]);
    }
  }

  lemma RoundKeeps(r: Rules, ours: Row, theirs: Row, i: nat, log: seq<HitLog>, d: RoundDice)
    requires i <= |ours| == |theirs| && SaneRows(r, ours, theirs) && RoundFrom(r, ours, theirs, i, log, d).Round?
    ensures var e := RoundFrom(r, ours, theirs, i, log, d);
      Kept(ours, theirs, e.ours, e.theirs) && (!e.over ==> e.log.Some? && log <= e.log.value)
  {
    RoundIsFair(r, ours, theirs, i, log, d);
  }

  ghost predicate Unfinished(e: RoundEnd, k: nat) {
    e.Round? && !e.over && Stands(e.ours, k) && Stands(e.theirs, k)
  }

  lemma {:induction false} RoundLeavesNobodyOut(
      r: Rules, ours: Row, theirs: Row, i: nat, log: seq<HitLog>, d: RoundDice, k: nat)
    requires i <= |ours| == |theirs| && SaneRows(r, ours, theirs) && i <= k
    requires Unfinished(RoundFrom(r, ours, theirs, i, log, d), k)
    ensures var e := RoundFrom(r, ours, theirs, i, log, d); e.log.Some? && Exchange(e.log.value, ours, theirs, k)
    decreases |ours| - i
  {
    var e := RoundFrom(r, ours, theirs, i, log, d);
    RoundKeeps(r, ours, theirs, i, log, d);
    if i < |ours| {
      var p := Place(r, ours, theirs, i, log, d);
      PlaceKeeps(r, ours, theirs, i, log, d);
      assert !p.over;
      assert e == RoundFrom(r, p.ours, p.theirs, i + 1, p.log.value, d);
      if i == k {
        RoundKeeps(r, p.ours, p.theirs, i + 1, p.log.value, d);
        StoodBoth(p.ours, p.theirs, e.ours, e.theirs, k);
        StoodBoth(ours, theirs, p.ours, p.theirs, k);
        BothHit(r, ours, theirs, i, log, d);
        ExchangeStays(p.log.value, e.log.value, ours, theirs, p.ours, p.theirs, k);
      } else {
        RoundLeavesNobodyOut(r, p.ours, p.theirs, i + 1, p.log.value, d, k);
        ExchangeStays(e.log.value, e.log.value, ours, theirs, p.ours, p.theirs, k);
      }
    }
  }

  /** In a sane battle, a round that does not end the battle lets any two opposite units that stand after it hit
      each other, whichever side begins. */
  lemma EverybodyFights(r: Rules, att: Row, def: Row, d: RoundDice, k: nat)
    requires |att| == |def| && SaneRows(r, att, def)
    requires var e := PlayRound(r, att, def, d); e.Round? && !e.over && Stands(e.ours, k) && Stands(e.theirs, k)
    ensures PlayRound(r, att, def, d).log.Some? && Exchange(PlayRound(r, att, def, d).log.value, att, def, k)
  {
    if d.first % 2 == 0 {
      RoundLeavesNobodyOut(r, def, att, 0, [], d, k);
    } else {
      RoundLeavesNobodyOut(r, att, def, 0, [], d, k);
    }
  }

  // ---------- What units carry ----------

  /** The skills set off that have a target. */
  lemma {:induction false} CarriedAre(ts: seq<Triggered>)
    ensures forall t :: t in ts && t.active.conf.target != NoTarget ==> t.active in Carried(ts)
    ensures forall a :: a in Carried(ts) ==> exists t :: t in ts && t.active == a && t.active.conf.target != NoTarget
    ensures (forall t :: t in ts ==> t.active.conf.target != NoTarget) ==> |Carried(ts)| == |ts|
  {
    if ts != [] {
      var rest, last := ts[..|ts| - 1], ts[|ts| - 1];
      CarriedAre(rest);
      assert ts == rest + [last];
      assert last in ts;
      assert forall t :: t in rest ==> t in ts;
    }
  }

  /** A unit that triggers its skills carries them from then on beside those it carried; the units it is up against
      keep theirs. */
  lemma PhaseCarries(r: Rules, ours: Row, theirs: Row, i: nat, our: Row, enemy: Row, after: bool, d: Dice)
    requires i < |ours| && ours[i].Some?
    ensures var x := SkillPhase(r, ours, theirs, i, our, enemy, after, d);
      var ts := Triggers(ours[i].value, our, enemy, after, d, |ours[i].value.learnt|);
      && x.0[i].Some? && x.0[i].value.skills == ours[i].value.skills + Carried(ts)
      && (forall k :: 0 <= k < |ours| && k != i ==> x.0[k] == ours[k])
      && (forall k :: 0 <= k < |theirs| && theirs[k].Some? ==>
            x.1[k].Some? && x.1[k].value.skills == theirs[k].value.skills)
  {
    var u := ours[i].value;
    var ts := Triggers(u, our, enemy, after, d, |u.learnt|);
    var a := u.(skills := u.skills + Carried(ts));
    SkillsHurt(r, a, theirs, ts, false);
    var x := SkillKill(r, a, theirs, ts);
    assert forall k :: 0 <= k < |theirs| ==> SameButSoldiers(theirs[k], x.1[k]);
  }

  predicate AllLast(skills: seq<Active>) {
    forall a :: a in skills ==> a.duration > 0
  }

  /** After the blow neither of the two carries a skill without duration. */
  lemma InstantSkillsGo(r: Rules, ours: Row, theirs: Row, i: nat, d: HitDice)
    requires i < |ours| && i < |theirs| && ours[i].Some? && theirs[i].Some?
    ensures var h := OpenHit(r, ours, theirs, i, d);
      h.ours[i].Some? && h.theirs[i].Some? && AllLast(h.ours[i].value.skills) && AllLast(h.theirs[i].value.skills)
  {
  }

  lemma {:induction false} NextRoundAges(row: Row, k: nat)
    requires (forall j :: 0 <= j < |row| ==> row[j].Some?) && k < |row|
    ensures NextRound(row)[k] == Some(row[k].value.(skills := Aged(row[k].value.skills)))
  {
    if k > 0 {
      NextRoundAges(row[1..], k - 1);
    }
  }

  /** The end of a round takes one round from every skill of every unit on both sides, and changes nothing else. */
  lemma EndAgesEverybody(ours: Row, theirs: Row, log: seq<HitLog>, k: nat)
    requires EndRound(ours, theirs, log).Round?
    ensures var e := EndRound(ours, theirs, log);
      && (k < |ours| ==> ours[k].Some? && e.ours[k] == Some(ours[k].value.(skills := Aged(ours[k].value.skills))))
      && (k < |theirs| ==> theirs[k].Some? && e.theirs[k] == Some(theirs[k].value.(skills := Aged(theirs[k].value.skills))))
      && !e.over && e.log == Some(log)
  {
    assert forall j :: 0 <= j < |ours| ==> ours[j].Some?;
    assert forall j :: 0 <= j < |theirs| ==> theirs[j].Some?;
    if k < |ours| {
      NextRoundAges(ours, k);
    }
    if k < |theirs| {
      NextRoundAges(theirs, k);
    }
  }

  // ---------- Kills by target ----------

  /** The soldiers of the units of one general. */
  function TroopsOf(row: Row, id: int): int {
    if row == [] then 0
    else (if row[0].Some? && row[0].value.id == id then row[0].value.soldiers else 0) + TroopsOf(row[1..], id)
  }

  lemma {:induction false} TroopsOfUpdate(row: Row, k: nat, u: Unit, id: int)
    requires k < |row| && row[k].Some? && u.id == row[k].value.id
    ensures TroopsOf(row[k := Some(u)], id) ==
      TroopsOf(row, id) + if u.id == id then u.soldiers - row[k].value.soldiers else 0
  {
    if k > 0 {
      assert row[k := Some(u)][1..] == row[1..][k - 1 := Some(u)];
      TroopsOfUpdate(row[1..], k - 1, u, id);
    }
  }

  lemma {:induction false} TargetKills(r: Rules, a: Unit, row: Row, to: int, v: int, k: nat, id: int)
    requires k <= |row|
    ensures var x := HurtTarget(r, a, row, to, v, k);
      TroopsOf(x.1, id) == TroopsOf(row, id) - if id == to then x.2 else 0
    decreases |row| - k
  {
    if k == |row| {
    } else if !IsTarget(row[k], to) {
      TargetKills(r, a, row, to, v, k + 1, id);
    } else {
      var (a1, row1, n) := Strike(r, a, row, k, Quot(Might(a) * v, 100));
      TroopsOfUpdate(row, k, row1[k].value, id);
      TargetKills(r, a1, row1, to, v, k + 1, id);
    }
  }

  lemma {:induction false} TargetsKill(
      r: Rules, a: Unit, row: Row, toId: seq<int>, v: int, j: nat, kill: seq<int>, m: nat)
    requires j <= |toId| == |kill| && NoDup(toId) && m < |toId|
    ensures var x := HurtTargets(r, a, row, toId, v, j, kill);
      x.2[m] - kill[m] == TroopsOf(row, toId[m]) - TroopsOf(x.1, toId[m])
    decreases |toId| - j
  {
    if j < |toId| {
      var (a1, row1, n) := HurtTarget(r, a, row, toId[j], v, 0);
      TargetKills(r, a, row, toId[j], v, 0, toId[m]);
      assert toId[m] == toId[j] <==> m == j;
      TargetsKill(r, a1, row1, toId, v, j + 1, kill[j := kill[j] + n], m);
    }
  }

  /** The kills entered for a target are the soldiers the units of that general lose to the skill. */
  lemma {:induction false} KillsByTarget(
      r: Rules, a: Unit, row: Row, t: Active, toId: seq<int>, i: nat, kill: seq<int>, m: nat)
    requires i <= |t.conf.effects| && |toId| == |kill| && NoDup(toId) && m < |toId|
    ensures var x := HurtEffects(r, a, row, t, toId, i, kill);
      x.2[m] - kill[m] == TroopsOf(row, toId[m]) - TroopsOf(x.1, toId[m])
    decreases |t.conf.effects| - i
  {
    if i == |t.conf.effects| {
    } else if t.conf.effects[i] != HURT_RATE {
      KillsByTarget(r, a, row, t, toId, i + 1, kill, m);
    } else {
      var v := t.conf.levels[t.lv - 1].values[i];
      var (a1, row1, kill1) := HurtTargets(r, a, row, toId, v, 0, kill);
      TargetsKill(r, a, row, toId, v, 0, kill, m);
      KillsByTarget(r, a1, row1, t, toId, i + 1, kill1, m);
    }
  }
}
