/** Battles: rounds of blows and skills between two rows of units.

    The damage ratio is a whole percentage, so the damage is a quotient of integers cut towards
    zero; floating-point rounding is not modelled. Configuration is taken to be aligned, every level
    of a skill giving one value per effect. A triggered skill is a value: the copy a unit keeps
    carries the remaining duration, the copy in the log carries what it killed. */
module Battle {
  import opened Wrappers

  const HURT_RATE := 1
  const FORCE := 2
  const DEFENSE := 3
  const STRATEGY := 4
  const SPEED := 5
  const DESTROY := 6
  const MAX_ROUND := 10
  const EXP_PER_KILL := 5

  datatype Target =
    | MySelf | OurSingle | OurMostTwo | OurMostThree | OurAll
    | EnemySingle | EnemyMostTwo | EnemyMostThree | EnemyAll | NoTarget

  datatype Trigger = Positive | Passive | AddAttack | Command

  datatype Level = Level(probability: int, values: seq<int>)

  datatype RawConf = RawConf(trigger: Trigger, target: Target, duration: int, effects: seq<int>, levels: seq<Level>)

  /** A skill whose levels give one value for every effect. */
  type Conf = c: RawConf | forall l :: l in c.levels ==> |l.values| == |c.effects|
    witness RawConf(Positive, MySelf, 0, [], [])

  /** A skill learnt by a general, with its configuration if there is one. */
  datatype Learnt = Learnt(id: int, conf: Option<Conf>, lv: int)

  datatype RawActive = RawActive(conf: Conf, lv: int, duration: int)

  type Active = a: RawActive | 1 <= a.lv <= |a.conf.levels|
    witness RawActive(RawConf(Positive, MySelf, 0, [], [Level(0, [])]), 1, 0)

  datatype Triggered = Triggered(active: Active, isEnemy: bool, toId: seq<int>, kill: seq<int>)

  datatype Unit = Unit(
    id: int, arms: int, position: int,
    force: int, defense: int, strategy: int, speed: int, destroy: int, learnt: seq<Learnt>,
    soldiers: int, exp: int, skills: seq<Active>)

  type Row = seq<Option<Unit>>

  /** `ratio` is the harm ratio in percent; `infinite` is what the platform makes of converting the
      infinite or undefined quotient of a division by zero to an integer. */
  datatype Rules = Rules(ratio: (int, int) -> int, infinite: int -> int)

  datatype HitLog = HitLog(
    aId: int, dId: int, dLoss: int, aBefore: seq<Triggered>, aAfter: seq<Triggered>, bAfter: seq<Triggered>)

  // ---------- Troops, experience and what a log records ----------

  function Sum(s: seq<int>): int {
    if s == [] then 0 else s[0] + Sum(s[1..])
  }

  function Soldiers(u: Option<Unit>): int {
    if u.Some? then u.value.soldiers else 0
  }

  function Troops(row: Row): int {
    if row == [] then 0 else Soldiers(row[0]) + Troops(row[1..])
  }

  function Exp(row: Row): int {
    if row == [] then 0 else (if row[0].Some? then row[0].value.exp else 0) + Exp(row[1..])
  }

  function Killed(ts: seq<Triggered>): int {
    if ts == [] then 0 else Sum(ts[0].kill) + Killed(ts[1..])
  }

  function Toll(h: HitLog): int {
    h.dLoss + Killed(h.aBefore) + Killed(h.aAfter) + Killed(h.bAfter)
  }

  function RoundToll(log: seq<HitLog>): int {
    if log == [] then 0 else RoundToll(log[..|log| - 1]) + Toll(log[|log| - 1])
  }

  lemma {:induction false} SumUpdate(s: seq<int>, j: nat, x: int)
    requires j < |s|
    ensures Sum(s[j := x]) == Sum(s) - s[j] + x
  {
    if j > 0 {
      assert s[j := x][1..] == s[1..][j - 1 := x];
      SumUpdate(s[1..], j - 1, x);
    }
  }

  lemma {:induction false} RowUpdate(row: Row, k: nat, u: Unit)
    requires k < |row| && row[k].Some?
    ensures Troops(row[k := Some(u)]) == Troops(row) - row[k].value.soldiers + u.soldiers
    ensures Exp(row[k := Some(u)]) == Exp(row) - row[k].value.exp + u.exp
  {
    if k > 0 {
      assert row[k := Some(u)][1..] == row[1..][k - 1 := Some(u)];
      RowUpdate(row[1..], k - 1, u);
    }
  }

  // ---------- One blow ----------

  /** Integer division as Go does it, towards zero. */
  function Quot(n: int, d: int): int
    requires d != 0
  {
    if (n >= 0) == (d > 0) then (if n >= 0 then n else -n) / (if d > 0 then d else -d)
    else -((if n >= 0 then n else -n) / (if d > 0 then d else -d))
  }

  lemma QuotNonNegative(n: int, d: int)
    requires n >= 0 && d > 0
    ensures Quot(n, d) >= 0
  {
  }

  function Damage(r: Rules, a: Unit, b: Unit, force: int, defense: int): int {
    var power := force * a.soldiers * r.ratio(a.arms, b.arms);
    if defense + 100 == 0 then r.infinite(power) else Quot(power, 100 * (defense + 100))
  }

  function Loss(r: Rules, a: Unit, b: Unit, force: int, defense: int): int {
    if Damage(r, a, b, force, defense) > b.soldiers then b.soldiers else Damage(r, a, b, force, defense)
  }

  /** What the effects of one kind add up to over the skills a unit carries. */
  function Bonus(skills: seq<Active>, kind: int): int {
    if skills == [] then 0
    else
      Bonus(skills[..|skills| - 1], kind)
      + LastBonus(skills[|skills| - 1], kind)
  }

  function LastBonus(t: Active, kind: int): int {
    EffectBonus(t.conf.effects, t.conf.levels[t.lv - 1].values, kind)
  }

  function EffectBonus(effects: seq<int>, values: seq<int>, kind: int): int
    requires |effects| == |values|
  {
    if effects == [] then 0
    else
      EffectBonus(effects[..|effects| - 1], values[..|values| - 1], kind)
      + if effects[|effects| - 1] == kind then values[|values| - 1] else 0
  }

  function Might(u: Unit): int {
    u.force + Bonus(u.skills, FORCE)
  }

  function Guard(u: Unit): int {
    u.defense + Bonus(u.skills, DEFENSE)
  }

  // ---------- Sane battles ----------

  ghost predicate Mild(c: Conf) {
    forall l, i :: l in c.levels && 0 <= i < |l.values| ==> l.values[i] >= 0
  }

  ghost predicate SaneUnit(u: Unit) {
    && u.soldiers >= 0 && u.force >= 0 && u.defense > -100
    && (forall s :: s in u.learnt && s.conf.Some? ==> Mild(s.conf.value))
    && (forall t :: t in u.skills ==> Mild(t.conf))
  }

  ghost predicate SaneRow(row: Row) {
    forall k :: 0 <= k < |row| && row[k].Some? ==> SaneUnit(row[k].value)
  }

  ghost predicate SaneRules(r: Rules) {
    forall x, y :: r.ratio(x, y) >= 0
  }

  /** No unit has more soldiers than before, and none a negative number. */
  ghost predicate NoGain(row: Row, row': Row) {
    && |row'| == |row|
    && forall k :: 0 <= k < |row| && row[k].Some? ==>
         row'[k].Some? && 0 <= row'[k].value.soldiers <= row[k].value.soldiers
  }

  lemma {:induction false} EffectBonusMild(effects: seq<int>, values: seq<int>, kind: int)
    requires |effects| == |values| && forall i :: 0 <= i < |values| ==> values[i] >= 0
    ensures EffectBonus(effects, values, kind) >= 0
  {
    if effects != [] {
      EffectBonusMild(effects[..|effects| - 1], values[..|values| - 1], kind);
    }
  }

  lemma {:induction false} BonusMild(skills: seq<Active>, kind: int)
    requires forall t :: t in skills ==> Mild(t.conf)
    ensures Bonus(skills, kind) >= 0
  {
    if skills != [] {
      var t := skills[|skills| - 1];
      BonusMild(skills[..|skills| - 1], kind);
      assert t.conf.levels[t.lv - 1] in t.conf.levels;
      EffectBonusMild(t.conf.effects, t.conf.levels[t.lv - 1].values, kind);
    }
  }

  lemma SaneLoss(r: Rules, a: Unit, b: Unit, force: int)
    requires SaneRules(r) && SaneUnit(a) && SaneUnit(b) && force >= 0
    ensures 0 <= Loss(r, a, b, force, Guard(b)) <= b.soldiers
  {
    BonusMild(b.skills, DEFENSE);
    var ratio := r.ratio(a.arms, b.arms);
    assert force * a.soldiers >= 0;
    assert force * a.soldiers * ratio >= 0;
    QuotNonNegative(force * a.soldiers * ratio, 100 * (Guard(b) + 100));
  }

  function Abs(n: int): nat {
    if n >= 0 then n else -n
  }

  /** A blow adds soldiers to the unit it hits exactly when attack power and guard have opposite
      signs and the power is large enough not to be cut to nothing. */
  lemma BlowHealsExactly(r: Rules, a: Unit, b: Unit, force: int)
    requires b.soldiers >= 0 && Guard(b) + 100 != 0
    ensures
      var power, cover := force * a.soldiers * r.ratio(a.arms, b.arms), 100 * (Guard(b) + 100);
      Loss(r, a, b, force, Guard(b)) < 0 <==> (power < 0) != (cover < 0) && Abs(power) >= Abs(cover)
  {
    var power, cover := force * a.soldiers * r.ratio(a.arms, b.arms), 100 * (Guard(b) + 100);
    assert Damage(r, a, b, force, Guard(b)) == Quot(power, cover);
    QuotNegative(power, cover);
  }

  lemma QuotNegative(n: int, d: int)
    requires d != 0
    ensures Quot(n, d) < 0 <==> (n < 0) != (d < 0) && Abs(n) >= Abs(d)
  {
    WholeParts(Abs(n), Abs(d));
  }

  lemma WholeParts(n: nat, d: nat)
    requires d > 0
    ensures n / d >= 0 && (n / d >= 1 <==> n >= d)
  {
    assert n == d * (n / d) + n % d;
  }

  lemma SaneForce(a: Unit, v: int)
    requires SaneUnit(a) && v >= 0
    ensures Might(a) >= 0 && Quot(Might(a) * v, 100) >= 0
  {
    BonusMild(a.skills, FORCE);
    assert Might(a) * v >= 0;
    QuotNonNegative(Might(a) * v, 100);
  }

  // ---------- Skills that hurt ----------

  /** Unit `a` has learnt by what it killed in `row`; nothing else about either changed but the
      soldiers of the row, which are fewer by exactly that number. */
  ghost predicate Bled(a: Unit, row: Row, a': Unit, row': Row, killed: int) {
    && a' == a.(exp := a.exp + EXP_PER_KILL * killed)
    && |row'| == |row|
    && (forall k :: 0 <= k < |row| ==> SameButSoldiers(row[k], row'[k]))
    && Troops(row') == Troops(row) - killed
    && Exp(row') == Exp(row)
  }

  predicate SameButSoldiers(u: Option<Unit>, u': Option<Unit>) {
    u'.Some? == u.Some? && (u.Some? ==> u'.value == u.value.(soldiers := u'.value.soldiers))
  }

  /** One blow of `a` on place `k` of the row; the result's last component is the loss. */
  function Strike(r: Rules, a: Unit, row: Row, k: nat, force: int): (x: (Unit, Row, int))
    requires k < |row| && row[k].Some?
    ensures |x.1| == |row|
  {
    var b := row[k].value;
    var loss := Loss(r, a, b, force, Guard(b));
    (a.(exp := a.exp + EXP_PER_KILL * loss), row[k := Some(b.(soldiers := b.soldiers - loss))], loss)
  }

  predicate IsTarget(u: Option<Unit>, to: int) {
    u.Some? && u.value.id == to && u.value.soldiers > 0
  }

  function Plus(x: (Unit, Row, int), n: int): (Unit, Row, int) {
    (x.0, x.1, x.2 + n)
  }

  /** The blows on every standing unit of the row whose general is `to`, from place `k` on. */
  function HurtTarget(r: Rules, a: Unit, row: Row, to: int, v: int, k: nat): (x: (Unit, Row, int))
    requires k <= |row|
    decreases |row| - k
  {
    if k == |row| then (a, row, 0)
    else if !IsTarget(row[k], to) then HurtTarget(r, a, row, to, v, k + 1)
    else
      var (a1, row1, n) := Strike(r, a, row, k, Quot(Might(a) * v, 100));
      Plus(HurtTarget(r, a1, row1, to, v, k + 1), n)
  }

  /** One damaging effect on all targets of the skill, from the `j`-th on. */
  function HurtTargets(r: Rules, a: Unit, row: Row, toId: seq<int>, v: int, j: nat, kill: seq<int>)
    : (x: (Unit, Row, seq<int>))
    requires j <= |toId| == |kill|
    ensures |x.2| == |kill|
    decreases |toId| - j
  {
    if j == |toId| then (a, row, kill)
    else
      var (a1, row1, n) := HurtTarget(r, a, row, toId[j], v, 0);
      HurtTargets(r, a1, row1, toId, v, j + 1, kill[j := kill[j] + n])
  }

  /** All damaging effects of one skill, from the `i`-th effect on. */
  function HurtEffects(r: Rules, a: Unit, row: Row, t: Active, toId: seq<int>, i: nat, kill: seq<int>)
    : (x: (Unit, Row, seq<int>))
    requires i <= |t.conf.effects| && |toId| == |kill|
    ensures |x.2| == |kill|
    decreases |t.conf.effects| - i
  {
    if i == |t.conf.effects| then (a, row, kill)
    else if t.conf.effects[i] != HURT_RATE then HurtEffects(r, a, row, t, toId, i + 1, kill)
    else
      var (a1, row1, kill1) := HurtTargets(r, a, row, toId, t.conf.levels[t.lv - 1].values[i], 0, kill);
      HurtEffects(r, a1, row1, t, toId, i + 1, kill1)
  }

  function Zeros(n: nat): (z: seq<int>)
    ensures |z| == n && Sum(z) == 0
  {
    if n == 0 then [] else [0] + Zeros(n - 1)
  }

  /** All skills of a list; the skills come back with what each killed. */
  function SkillKill(r: Rules, a: Unit, row: Row, ts: seq<Triggered>): (x: (Unit, Row, seq<Triggered>))
    ensures |x.2| == |ts|
    decreases |ts|
  {
    if ts == [] then (a, row, [])
    else
      var t := ts[0];
      var (a1, row1, kill) := HurtEffects(r, a, row, t.active, t.toId, 0, Zeros(|t.toId|));
      var (a2, row2, rest) := SkillKill(r, a1, row1, ts[1..]);
      (a2, row2, [t.(kill := kill)] + rest)
  }

  /** A skill costs the row exactly what its owner learns from; `mild` skills of sane units raise nobody's number. */
  ghost predicate Hurts(r: Rules, a: Unit, row: Row, a': Unit, row': Row, killed: int, mild: bool) {
    && Bled(a, row, a', row', killed)
    && (SaneRules(r) && SaneUnit(a) && SaneRow(row) && mild ==> NoGain(row, row'))
  }

  lemma HurtsThen(
      r: Rules, a0: Unit, row0: Row, a1: Unit, row1: Row, a2: Unit, row2: Row, n: int, m: int, mild: bool)
    requires Hurts(r, a0, row0, a1, row1, n, mild) && Hurts(r, a1, row1, a2, row2, m, mild)
    ensures Hurts(r, a0, row0, a2, row2, n + m, mild)
  {
  }

  lemma StrikeHurts(r: Rules, a: Unit, row: Row, k: nat, force: int)
    requires k < |row| && row[k].Some?
    ensures var x := Strike(r, a, row, k, force); Hurts(r, a, row, x.0, x.1, x.2, force >= 0)
  {
    var b := row[k].value;
    RowUpdate(row, k, b.(soldiers := b.soldiers - Loss(r, a, b, force, Guard(b))));
    if SaneRules(r) && SaneUnit(a) && SaneRow(row) && force >= 0 {
      SaneLoss(r, a, b, force);
    }
  }

  lemma {:induction false} TargetHurts(r: Rules, a: Unit, row: Row, to: int, v: int, k: nat)
    requires k <= |row|
    ensures var x := HurtTarget(r, a, row, to, v, k); Hurts(r, a, row, x.0, x.1, x.2, v >= 0)
    decreases |row| - k
  {
    if k == |row| {
    } else if !IsTarget(row[k], to) {
      TargetHurts(r, a, row, to, v, k + 1);
    } else {
      var force := Quot(Might(a) * v, 100);
      var (a1, row1, n) := Strike(r, a, row, k, force);
      StrikeHurts(r, a, row, k, force);
      if SaneUnit(a) && v >= 0 {
        SaneForce(a, v);
      }
      TargetHurts(r, a1, row1, to, v, k + 1);
      var x := HurtTarget(r, a1, row1, to, v, k + 1);
      HurtsThen(r, a, row, a1, row1, x.0, x.1, n, x.2, v >= 0);
    }
  }

  lemma {:induction false} TargetsHurt(r: Rules, a: Unit, row: Row, toId: seq<int>, v: int, j: nat, kill: seq<int>)
    requires j <= |toId| == |kill|
    ensures var x := HurtTargets(r, a, row, toId, v, j, kill); Hurts(r, a, row, x.0, x.1, Sum(x.2) - Sum(kill), v >= 0)
    decreases |toId| - j
  {
    if j < |toId| {
      var (a1, row1, n) := HurtTarget(r, a, row, toId[j], v, 0);
      var kill1 := kill[j := kill[j] + n];
      TargetHurts(r, a, row, toId[j], v, 0);
      SumUpdate(kill, j, kill[j] + n);
      TargetsHurt(r, a1, row1, toId, v, j + 1, kill1);
      var x := HurtTargets(r, a1, row1, toId, v, j + 1, kill1);
      HurtsThen(r, a, row, a1, row1, x.0, x.1, n, Sum(x.2) - Sum(kill1), v >= 0);
    }
  }

  lemma {:induction false} EffectsHurt(
      r: Rules, a: Unit, row: Row, t: Active, toId: seq<int>, i: nat, kill: seq<int>, mild: bool)
    requires i <= |t.conf.effects| && |toId| == |kill| && (mild ==> Mild(t.conf))
    ensures var x := HurtEffects(r, a, row, t, toId, i, kill); Hurts(r, a, row, x.0, x.1, Sum(x.2) - Sum(kill), mild)
    decreases |t.conf.effects| - i
  {
    if i == |t.conf.effects| {
    } else if t.conf.effects[i] != HURT_RATE {
      EffectsHurt(r, a, row, t, toId, i + 1, kill, mild);
    } else {
      var level := t.conf.levels[t.lv - 1];
      assert level in t.conf.levels;
      var (a1, row1, kill1) := HurtTargets(r, a, row, toId, level.values[i], 0, kill);
      TargetsHurt(r, a, row, toId, level.values[i], 0, kill);
      EffectsHurt(r, a1, row1, t, toId, i + 1, kill1, mild);
      var x := HurtEffects(r, a1, row1, t, toId, i + 1, kill1);
      HurtsThen(r, a, row, a1, row1, x.0, x.1, Sum(kill1) - Sum(kill), Sum(x.2) - Sum(kill1), mild);
    }
  }

  /** Whatever skills are used, the kills entered in them are the soldiers lost, and five times
      that is the experience gained. */
  lemma {:induction false} SkillsHurt(r: Rules, a: Unit, row: Row, ts: seq<Triggered>, mild: bool)
    requires mild ==> forall t :: t in ts ==> Mild(t.active.conf)
    ensures var x := SkillKill(r, a, row, ts); Hurts(r, a, row, x.0, x.1, Killed(x.2), mild)
    decreases |ts|
  {
    if ts != [] {
      var t := ts[0];
      var (a1, row1, kill) := HurtEffects(r, a, row, t.active, t.toId, 0, Zeros(|t.toId|));
      EffectsHurt(r, a, row, t.active, t.toId, 0, Zeros(|t.toId|), mild);
      SkillsHurt(r, a1, row1, ts[1..], mild);
      var x := SkillKill(r, a1, row1, ts[1..]);
      assert ([t.(kill := kill)] + x.2)[1..] == x.2;
      HurtsThen(r, a, row, a1, row1, x.0, x.1, Sum(kill), Killed(x.2), mild);
    }
  }

  // ---------- Choosing targets and triggering skills ----------

  ghost predicate IsShuffle(f: seq<nat> -> seq<nat>) {
    forall s: seq<nat> :: multiset(f(s)) == multiset(s)
  }

  function Unshuffled(s: seq<nat>): seq<nat> {
    s
  }

  type Shuffle = f: seq<nat> -> seq<nat> | IsShuffle(f)
    witness Unshuffled

  /** The random choices of one call of triggerSkills, by the position of the skill. */
  datatype Dice = Dice(roll: nat -> int, shuffle: nat -> Shuffle)

  ghost predicate NoDup<T>(s: seq<T>) {
    forall i, j :: 0 <= i < j < |s| ==> s[i] != s[j]
  }

  predicate Standing(u: Option<Unit>) {
    u.Some? && u.value.soldiers > 0
  }

  /** The places of the standing units among the first `n`, in order. */
  function Places(row: Row, n: nat): (p: seq<nat>)
    requires n <= |row|
    ensures forall k: int :: k in p <==> 0 <= k < n && Standing(row[k])
    ensures NoDup(p)
  {
    if n == 0 then [] else Places(row, n - 1) + if Standing(row[n - 1]) then [n - 1] else []
  }

  lemma {:induction false} NoDupCount<T>(s: seq<T>)
    ensures NoDup(s) <==> forall x :: multiset(s)[x] <= 1
  {
    if s != [] {
      var last, rest := s[|s| - 1], s[..|s| - 1];
      assert s == rest + [last];
      NoDupCount(rest);
      if NoDup(s) {
        assert forall i :: 0 <= i < |rest| ==> s[i] != s[|s| - 1];
        assert last !in rest;
        assert multiset(rest)[last] == 0;
      } else if NoDup(rest) {
        assert last in rest;
        assert multiset(rest)[last] >= 1;
        assert multiset(s)[last] >= 2;
      } else {
        var x :| multiset(rest)[x] > 1;
        assert multiset(s)[x] > 1;
      }
    }
  }

  function Min(a: nat, b: nat): nat {
    if a <= b then a else b
  }

  /** Up to `n` different standing units of the row: all that stand when there are no more than `n`. */
  function RandomPlaces(row: Row, n: nat, shuffle: Shuffle): (p: seq<nat>)
    ensures |p| == Min(n, |Places(row, |row|)|) && NoDup(p)
    ensures forall i :: 0 <= i < |p| ==> p[i] < |row| && Standing(row[p[i]])
    ensures forall k: int :: k in p ==> 0 <= k < |row| && Standing(row[k])
    ensures |p| < n ==> forall k :: 0 <= k < |row| && Standing(row[k]) ==> k in p
  {
    var valid := Places(row, |row|);
    var order := shuffle(valid);
    assert multiset(order) == multiset(valid);
    ShuffledPlaces(order, valid);
    assert forall i :: 0 <= i < |order| ==> order[i] in order && order[i] in valid;
    order[..Min(n, |order|)]
  }

  lemma ShuffledPlaces(order: seq<nat>, valid: seq<nat>)
    requires multiset(order) == multiset(valid) && NoDup(valid)
    ensures |order| == |valid| && NoDup(order)
    ensures forall k: int :: k in order <==> k in valid
  {
    assert |multiset(order)| == |order| && |multiset(valid)| == |valid|;
    NoDupCount(order);
    NoDupCount(valid);
    forall k: int
      ensures k in order <==> k in valid
    {
      assert k in order <==> k in multiset(order);
      assert k in valid <==> k in multiset(valid);
    }
  }

  predicate NamedAt(row: Row, p: int, id: int) {
    0 <= p < |row| && row[p].Some? && row[p].value.id == id
  }

  /** All the ids are of units in the row. */
  ghost predicate DrawnFrom(row: Row, ids: seq<int>) {
    forall j :: 0 <= j < |ids| ==> Named(row, ids[j])
  }

  ghost predicate Named(row: Row, id: int) {
    exists p :: NamedAt(row, p, id)
  }

  lemma DrawnIds(row: Row, places: seq<nat>, ids: seq<int>)
    requires |ids| == |places|
    requires forall i :: 0 <= i < |places| ==> NamedAt(row, places[i], ids[i])
    ensures DrawnFrom(row, ids)
  {
    forall j | 0 <= j < |ids|
      ensures Named(row, ids[j])
    {
      assert NamedAt(row, places[j], ids[j]);
    }
  }

  function Ids(row: Row, places: seq<nat>): (ids: seq<int>)
    requires forall i :: 0 <= i < |places| ==> places[i] < |row| && row[places[i]].Some?
    ensures |ids| == |places|
    ensures forall i :: 0 <= i < |ids| ==> ids[i] == row[places[i]].value.id
    ensures DrawnFrom(row, ids)
  {
    var ids := seq(|places|, i requires 0 <= i < |places| => row[places[i]].value.id);
    DrawnIds(row, places, ids);
    ids
  }

  /** Whom a skill of `u` is aimed at, and whether they count as enemies. */
  function Aim(u: Unit, our: Row, enemy: Row, target: Target, shuffle: Shuffle): (seq<int>, bool) {
    match target
    case MySelf => ([u.id], false)
    case OurSingle => (Ids(our, RandomPlaces(our, 1, shuffle)), false)
    case OurMostTwo => (Ids(our, RandomPlaces(our, 2, shuffle)), false)
    case OurMostThree => (Ids(our, RandomPlaces(our, 3, shuffle)), false)
    case OurAll => (Ids(our, RandomPlaces(our, |our|, shuffle)), false)
    case EnemySingle => (Ids(enemy, RandomPlaces(enemy, 1, shuffle)), true)
    case EnemyMostTwo => (Ids(enemy, RandomPlaces(enemy, 2, shuffle)), true)
    case EnemyMostThree => (Ids(enemy, RandomPlaces(enemy, 3, shuffle)), true)
    case EnemyAll => (Ids(enemy, RandomPlaces(enemy, |enemy|, shuffle)), true)
    case NoTarget => ([], false)
  }

  predicate FiresOn(c: Conf, after: bool) {
    if after then c.trigger == Passive || c.trigger == AddAttack else c.trigger == Positive || c.trigger == Command
  }

  predicate Fires(s: Learnt, after: bool, roll: int) {
    && s.id != 0 && s.conf.Some? && FiresOn(s.conf.value, after)
    && 1 <= s.lv <= |s.conf.value.levels|
    && roll >= 100 - s.conf.value.levels[s.lv - 1].probability
  }

  function Trigger1(u: Unit, our: Row, enemy: Row, s: Learnt, shuffle: Shuffle): Triggered
    requires s.conf.Some? && 1 <= s.lv <= |s.conf.value.levels|
  {
    var (toId, isEnemy) := Aim(u, our, enemy, s.conf.value.target, shuffle);
    Triggered(RawActive(s.conf.value, s.lv, s.conf.value.duration), isEnemy, toId, [])
  }

  /** The skills the first `n` learnt ones set off, in order. */
  function Triggers(u: Unit, our: Row, enemy: Row, after: bool, d: Dice, n: nat): (ts: seq<Triggered>)
    requires n <= |u.learnt|
    ensures SaneUnit(u) ==> forall t :: t in ts ==> Mild(t.active.conf)
  {
    if n == 0 then []
    else
      var s := u.learnt[n - 1];
      Triggers(u, our, enemy, after, d, n - 1)
      + if Fires(s, after, d.roll(n - 1)) then [Trigger1(u, our, enemy, s, d.shuffle(n - 1))] else []
  }

  /** A skill without a target is not put on its owner. */
  function Carried(ts: seq<Triggered>): seq<Active> {
    if ts == [] then []
    else
      Carried(ts[..|ts| - 1])
      + if ts[|ts| - 1].active.conf.target == NoTarget then [] else [ts[|ts| - 1].active]
  }

  lemma {:induction false} CarriedMild(ts: seq<Triggered>)
    requires forall t :: t in ts ==> Mild(t.active.conf)
    ensures forall a :: a in Carried(ts) ==> Mild(a.conf)
  {
    if ts != [] {
      CarriedMild(ts[..|ts| - 1]);
    }
  }

  // ---------- One exchange of blows ----------

  /** The two rows before and after something that cost `lost` soldiers: everybody keeps name, place
      and attributes, and experience has grown by five for each soldier lost. */
  ghost predicate Exchanged(ours: Row, theirs: Row, ours': Row, theirs': Row, lost: int) {
    && SameUnits(ours, ours') && SameUnits(theirs, theirs')
    && Troops(ours') + Troops(theirs') == Troops(ours) + Troops(theirs) - lost
    && Exp(ours') + Exp(theirs') == Exp(ours) + Exp(theirs) + EXP_PER_KILL * lost
  }

  predicate SameUnit(u: Option<Unit>, u': Option<Unit>) {
    u'.Some? == u.Some? &&
    (u.Some? ==> u'.value == u.value.(soldiers := u'.value.soldiers, exp := u'.value.exp, skills := u'.value.skills))
  }

  ghost predicate SameUnits(row: Row, row': Row) {
    |row'| == |row| && forall k :: 0 <= k < |row| ==> SameUnit(row[k], row'[k])
  }

  /** Both rows stay sane and nobody gains soldiers. */
  ghost predicate Waned(ours: Row, theirs: Row, ours': Row, theirs': Row) {
    SaneRow(ours') && SaneRow(theirs') && NoGain(ours, ours') && NoGain(theirs, theirs')
  }

  /** Soldiers lost are experience gained; in a sane battle, moreover, nobody gains soldiers. */
  ghost predicate Fair(r: Rules, ours: Row, theirs: Row, ours': Row, theirs': Row, lost: int) {
    && Exchanged(ours, theirs, ours', theirs', lost)
    && (SaneRules(r) && SaneRow(ours) && SaneRow(theirs) ==> Waned(ours, theirs, ours', theirs'))
  }

  lemma FairThen(r: Rules, o0: Row, t0: Row, o1: Row, t1: Row, o2: Row, t2: Row, n: int, m: int)
    requires Fair(r, o0, t0, o1, t1, n) && Fair(r, o1, t1, o2, t2, m)
    ensures Fair(r, o0, t0, o2, t2, n + m)
  {
  }

  lemma FairSwapped(r: Rules, o0: Row, t0: Row, o1: Row, t1: Row, n: int)
    requires Fair(r, t0, o0, t1, o1, n)
    ensures Fair(r, o0, t0, o1, t1, n)
  {
  }

  lemma BledRow(a: Unit, ours: Row, theirs: Row, i: nat, a': Unit, theirs': Row, killed: int)
    requires i < |ours| && ours[i].Some? && ours[i].value == a.(skills := ours[i].value.skills)
    requires Bled(a, theirs, a', theirs', killed)
    ensures Exchanged(ours, theirs, ours[i := Some(a')], theirs', killed)
    ensures SaneRow(ours) && SaneRow(theirs) && SaneUnit(a) && NoGain(theirs, theirs') ==>
      Waned(ours, theirs, ours[i := Some(a')], theirs')
  {
    RowUpdate(ours, i, a');
  }

  /** Unit `i` of `ours` triggers its skills and uses the damaging ones on `theirs`.  A skill aimed at
      "our" or "enemy" units looks for them in the rows `our` and `enemy`. */
  function SkillPhase(r: Rules, ours: Row, theirs: Row, i: nat, our: Row, enemy: Row, after: bool, d: Dice)
    : (x: (Row, Row, seq<Triggered>))
    requires i < |ours| && ours[i].Some?
    ensures Fair(r, ours, theirs, x.0, x.1, Killed(x.2))
  {
    var u := ours[i].value;
    var ts := Triggers(u, our, enemy, after, d, |u.learnt|);
    var a := u.(skills := u.skills + Carried(ts));
    assert SaneUnit(u) ==> SaneUnit(a) by {
      if SaneUnit(u) {
        CarriedMild(ts);
      }
    }
    var (a', theirs', used) := SkillKill(r, a, theirs, ts);
    SkillsHurt(r, a, theirs, ts, SaneUnit(u));
    BledRow(a, ours, theirs, i, a', theirs', Killed(used));
    (ours[i := Some(a')], theirs', used)
  }

  /** The ordinary blow of `ours[i]` on `theirs[i]`, if that unit still stands. */
  function Blow(r: Rules, ours: Row, theirs: Row, i: nat): (x: (Row, Row, int))
    requires i < |ours| && i < |theirs| && ours[i].Some? && theirs[i].Some?
    ensures Fair(r, ours, theirs, x.0, x.1, x.2)
  {
    if theirs[i].value.soldiers > 0 then
      var a := ours[i].value;
      assert SaneUnit(a) ==> Might(a) >= 0 by {
        if SaneUnit(a) {
          BonusMild(a.skills, FORCE);
        }
      }
      var (a', theirs', loss) := Strike(r, a, theirs, i, Might(a));
      StrikeHurts(r, a, theirs, i, Might(a));
      BledRow(a, ours, theirs, i, a', theirs', loss);
      (ours[i := Some(a')], theirs', loss)
    else (ours, theirs, 0)
  }

  function Lasting(skills: seq<Active>): (s: seq<Active>)
    ensures forall a :: a in s <==> a in skills && a.duration > 0
  {
    if skills == [] then []
    else
      var t := skills[|skills| - 1];
      Lasting(skills[..|skills| - 1]) + if t.duration > 0 then [t] else []
  }

  /** Instantaneous skills fall away after the blow. */
  function CheckHit(row: Row, i: nat): (row': Row)
    requires i < |row| && row[i].Some?
    ensures SameUnits(row, row') && Troops(row') == Troops(row) && Exp(row') == Exp(row)
    ensures SaneRow(row) ==> SaneRow(row') && NoGain(row, row')
  {
    var u := row[i].value;
    RowUpdate(row, i, u.(skills := Lasting(u.skills)));
    row[i := Some(u.(skills := Lasting(u.skills)))]
  }

  datatype HitDice = HitDice(before: Dice, after: Dice, counter: Dice)

  /** Place `i` holds the base of the army and nobody is left in it. */
  predicate FallenBase(row: Row, i: nat) {
    i < |row| && row[i].Some? && row[i].value.position == 0 && row[i].value.soldiers == 0
  }

  datatype HitEnd = HitEnd(ours: Row, theirs: Row, log: HitLog, over: bool)

  /** The first half of a hit: the skills before it, the blow, and the expiry of instantaneous skills. */
  function OpenHit(r: Rules, ours: Row, theirs: Row, i: nat, d: HitDice): (e: HitEnd)
    requires i < |ours| && i < |theirs| && ours[i].Some? && theirs[i].Some?
    ensures Fair(r, ours, theirs, e.ours, e.theirs, Toll(e.log))
    ensures e.over <==> FallenBase(e.theirs, i)
    ensures |e.log.aAfter| == |e.log.bAfter| == 0
  {
    var (ours1, theirs1, before) := SkillPhase(r, ours, theirs, i, ours, theirs, false, d.before);
    var (ours2, theirs2, loss) := Blow(r, ours1, theirs1, i);
    var struck := theirs1[i].value.soldiers > 0;
    var ours3 := CheckHit(ours2, i);
    var theirs3 := CheckHit(theirs2, i);
    FairThen(r, ours, theirs, ours1, theirs1, ours2, theirs2, Killed(before), loss);
    assert Fair(r, ours2, theirs2, ours3, theirs3, 0);
    FairThen(r, ours, theirs, ours2, theirs2, ours3, theirs3, Killed(before) + loss, 0);
    var (aId, dId) := if struck then (ours[i].value.id, theirs[i].value.id) else (0, 0);
    var log := HitLog(aId, dId, loss, before, [], []);
    HitEnd(ours3, theirs3, log, FallenBase(theirs3, i))
  }

  /** One unit hits the unit opposite.  In the answer of the unit hit, "our" and "enemy" are read as
      for the attacker. */
  function Hit(r: Rules, ours: Row, theirs: Row, i: nat, d: HitDice): (e: HitEnd)
    requires i < |ours| && i < |theirs| && ours[i].Some? && theirs[i].Some?
    ensures |e.ours| == |ours| && |e.theirs| == |theirs| && e.ours[i].Some? && e.theirs[i].Some?
  {
    var h := OpenHit(r, ours, theirs, i, d);
    if h.over then h
    else
      var (ours1, theirs1, after) := SkillPhase(r, h.ours, h.theirs, i, h.ours, h.theirs, true, d.after);
      var (theirs2, ours2, counter) := SkillPhase(r, theirs1, ours1, i, ours1, theirs1, true, d.counter);
      HitEnd(ours2, theirs2, h.log.(aAfter := after, bAfter := counter), false)
  }

  lemma HitIsFair(r: Rules, ours: Row, theirs: Row, i: nat, d: HitDice)
    requires i < |ours| && i < |theirs| && ours[i].Some? && theirs[i].Some?
    ensures var e := Hit(r, ours, theirs, i, d);
      && Fair(r, ours, theirs, e.ours, e.theirs, Toll(e.log))
      && (e.over ==> FallenBase(e.theirs, i))
  {
    var h := OpenHit(r, ours, theirs, i, d);
    if !h.over {
      var (ours1, theirs1, after) := SkillPhase(r, h.ours, h.theirs, i, h.ours, h.theirs, true, d.after);
      var (theirs2, ours2, counter) := SkillPhase(r, theirs1, ours1, i, ours1, theirs1, true, d.counter);
      FairSwapped(r, ours1, theirs1, ours2, theirs2, Killed(counter));
      FairThen(r, ours, theirs, h.ours, h.theirs, ours1, theirs1, Toll(h.log), Killed(after));
      FairThen(r, ours, theirs, ours1, theirs1, ours2, theirs2, Toll(h.log) + Killed(after), Killed(counter));
    }
  }

  // ---------- Rounds and battles ----------

  function Older(t: Active): Active {
    RawActive(t.conf, t.lv, t.duration - 1)
  }

  function Aged(skills: seq<Active>): (s: seq<Active>)
    ensures forall a :: a in s ==> a.duration > 0
  {
    if skills == [] then []
    else
      var t := Older(skills[|skills| - 1]);
      Aged(skills[..|skills| - 1]) + if t.duration > 0 then [t] else []
  }

  lemma {:induction false} AgedMild(skills: seq<Active>)
    requires forall t :: t in skills ==> Mild(t.conf)
    ensures forall t :: t in Aged(skills) ==> Mild(t.conf)
  {
    if skills != [] {
      AgedMild(skills[..|skills| - 1]);
      assert skills[|skills| - 1] in skills;
    }
  }

  /** Every unit's skills lose a round; the expired ones fall away. */
  function NextRound(row: Row): (row': Row)
    requires forall k :: 0 <= k < |row| ==> row[k].Some?
    ensures SameUnits(row, row') && Troops(row') == Troops(row) && Exp(row') == Exp(row)
    ensures SaneRow(row) ==> SaneRow(row') && NoGain(row, row')
  {
    if row == [] then []
    else
      var u := row[0].value;
      assert SaneRow(row) ==> SaneRow(row[1..]);
      assert SaneUnit(u) ==> SaneUnit(u.(skills := Aged(u.skills))) by {
        if SaneUnit(u) {
          AgedMild(u.skills);
        }
      }
      [Some(u.(skills := Aged(u.skills)))] + NextRound(row[1..])
  }

  /** A round ends with both rows and, unless it met a missing opponent, a log; or it dereferences a
      missing unit and fails. */
  datatype RoundEnd =
    | Round(ours: Row, theirs: Row, log: Option<seq<HitLog>>, over: bool)
    | Failed

  datatype RoundDice = RoundDice(first: int, hits: nat -> HitDice, replies: nat -> HitDice)

  function Lost(ours: Row, theirs: Row, ours': Row, theirs': Row): int {
    Troops(ours) + Troops(theirs) - Troops(ours') - Troops(theirs')
  }

  ghost predicate SomeBaseFell(ours: Row, theirs: Row) {
    (exists k :: FallenBase(ours, k)) || exists k :: FallenBase(theirs, k)
  }

  /** A round that is not cut short leaves a log; between complete rows it always does, and it is cut short only by
      the fall of a base. */
  ghost predicate RoundSound(ours: Row, theirs: Row, e: RoundEnd) {
    && (e.Round? && e.over && e.log.Some? ==> SomeBaseFell(e.ours, e.theirs))
    && (e.Round? && !e.over ==> e.log.Some?)
    && (!Missing(ours) && !Missing(theirs) ==> e.Round? && e.log.Some?)
  }

  /** From `log` on, the round was fair, and its log goes on from there and accounts for every soldier lost. */
  ghost predicate RoundFair(r: Rules, ours: Row, theirs: Row, log: seq<HitLog>, e: RoundEnd) {
    e.Round? ==>
      && Fair(r, ours, theirs, e.ours, e.theirs, Lost(ours, theirs, e.ours, e.theirs))
      && (e.log.Some? ==>
            log <= e.log.value && RoundToll(e.log.value) == RoundToll(log) + Lost(ours, theirs, e.ours, e.theirs))
  }

  lemma RoundThen(r: Rules, o: Row, t: Row, log: seq<HitLog>, p: RoundEnd, e: RoundEnd)
    requires RoundFair(r, o, t, log, p) && p.Round? && p.log.Some?
    requires RoundFair(r, p.ours, p.theirs, p.log.value, e)
    ensures RoundFair(r, o, t, log, e)
  {
    if e.Round? {
      FairThen(r, o, t, p.ours, p.theirs, e.ours, e.theirs,
        Lost(o, t, p.ours, p.theirs), Lost(p.ours, p.theirs, e.ours, e.theirs));
    }
  }

  lemma HitFair(r: Rules, o: Row, t: Row, log: seq<HitLog>, h: HitLog, p: RoundEnd)
    requires p.Round? && p.log == Some(log + [h]) && Fair(r, o, t, p.ours, p.theirs, Toll(h))
    ensures RoundFair(r, o, t, log, p)
  {
    assert (log + [h])[..|log|] == log;
  }

  lemma RoundStill(r: Rules, o: Row, t: Row, log: seq<HitLog>, e: RoundEnd)
    requires e.Round? && SameUnits(o, e.ours) && SameUnits(t, e.theirs)
    requires Troops(e.ours) == Troops(o) && Troops(e.theirs) == Troops(t)
    requires Exp(e.ours) == Exp(o) && Exp(e.theirs) == Exp(t)
    requires SaneRow(o) ==> SaneRow(e.ours) && NoGain(o, e.ours)
    requires SaneRow(t) ==> SaneRow(e.theirs) && NoGain(t, e.theirs)
    requires e.log.Some? ==> e.log.value == log
    ensures RoundFair(r, o, t, log, e)
  {
  }

  /** One place of a round: the unit of `ours` hits the one opposite, which hits back if both still stand. */
  function Place(r: Rules, ours: Row, theirs: Row, i: nat, log: seq<HitLog>, d: RoundDice): (p: RoundEnd)
    requires i < |ours| == |theirs|
    ensures p.Round? && |p.ours| == |p.theirs| == |ours| && (!p.over ==> p.log.Some?)
  {
    if ours[i].None? || ours[i].value.soldiers == 0 then Round(ours, theirs, Some(log), false)
    else if theirs[i].None? then Round(ours, theirs, None, true)
    else
      var h := Hit(r, ours, theirs, i, d.hits(i));
      if h.over || h.theirs[i].value.soldiers == 0 || h.ours[i].value.soldiers == 0
      then Round(h.ours, h.theirs, Some(log + [h.log]), h.over)
      else Reply(r, h.ours, h.theirs, i, log + [h.log], d)
  }

  /** The unit hit strikes back. */
  function Reply(r: Rules, ours: Row, theirs: Row, i: nat, log: seq<HitLog>, d: RoundDice): (p: RoundEnd)
    requires i < |ours| == |theirs| && ours[i].Some? && theirs[i].Some?
    ensures p.Round? && |p.ours| == |p.theirs| == |ours| && p.log.Some?
  {
    var b := Hit(r, theirs, ours, i, d.replies(i));
    Round(b.theirs, b.ours, Some(log + [b.log]), b.over)
  }

  /** A round from place `i` on. */
  function RoundFrom(r: Rules, ours: Row, theirs: Row, i: nat, log: seq<HitLog>, d: RoundDice): (e: RoundEnd)
    requires i <= |ours| == |theirs|
    ensures e.Round? ==> |e.ours| == |e.theirs| == |ours|
    decreases |ours| - i
  {
    if i == |ours| then EndRound(ours, theirs, log)
    else
      var p := Place(r, ours, theirs, i, log, d);
      if p.over then p else RoundFrom(r, p.ours, p.theirs, i + 1, p.log.value, d)
  }

  predicate Missing(row: Row) {
    exists k :: 0 <= k < |row| && row[k].None?
  }

  /** The end of a round looks at every place, and fails on a missing unit. */
  function EndRound(ours: Row, theirs: Row, log: seq<HitLog>): (e: RoundEnd)
    ensures e.Failed? <==> Missing(ours) || Missing(theirs)
    ensures e.Round? ==> |e.ours| == |ours| && |e.theirs| == |theirs|
  {
    if Missing(ours) || Missing(theirs) then Failed
    else Round(NextRound(ours), NextRound(theirs), Some(log), false)
  }

  lemma StillComplete(row: Row, row': Row)
    requires SameUnits(row, row')
    ensures Missing(row') ==> Missing(row)
  {
    if Missing(row') {
      var k :| 0 <= k < |row'| && row'[k].None?;
      assert SameUnit(row[k], row'[k]);
    }
  }

  lemma PlaceFair(r: Rules, ours: Row, theirs: Row, i: nat, log: seq<HitLog>, d: RoundDice)
    requires i < |ours| == |theirs|
    ensures RoundFair(r, ours, theirs, log, Place(r, ours, theirs, i, log, d))
    ensures RoundSound(ours, theirs, Place(r, ours, theirs, i, log, d))
  {
    var p := Place(r, ours, theirs, i, log, d);
    if ours[i].None? || ours[i].value.soldiers == 0 {
      RoundStill(r, ours, theirs, log, p);
    } else if theirs[i].None? {
      RoundStill(r, ours, theirs, log, p);
    } else {
      var h := Hit(r, ours, theirs, i, d.hits(i));
      var q := Round(h.ours, h.theirs, Some(log + [h.log]), h.over);
      HitIsFair(r, ours, theirs, i, d.hits(i));
      HitFair(r, ours, theirs, log, h.log, q);
      assert h.over ==> FallenBase(h.theirs, i);
      if !h.over && h.theirs[i].value.soldiers != 0 && h.ours[i].value.soldiers != 0 {
        var b := Hit(r, h.theirs, h.ours, i, d.replies(i));
        HitIsFair(r, h.theirs, h.ours, i, d.replies(i));
        FairSwapped(r, h.ours, h.theirs, b.theirs, b.ours, Toll(b.log));
        HitFair(r, h.ours, h.theirs, log + [h.log], b.log, p);
        RoundThen(r, ours, theirs, log, q, p);
        assert b.over ==> FallenBase(b.theirs, i);
      }
    }
  }

  lemma EndIsFair(r: Rules, ours: Row, theirs: Row, log: seq<HitLog>)
    ensures RoundFair(r, ours, theirs, log, EndRound(ours, theirs, log))
    ensures RoundSound(ours, theirs, EndRound(ours, theirs, log))
  {
    var e := EndRound(ours, theirs, log);
    if e.Round? {
      RoundStill(r, ours, theirs, log, e);
    }
  }

  lemma SoundThen(o: Row, t: Row, o1: Row, t1: Row, e: RoundEnd)
    requires SameUnits(o, o1) && SameUnits(t, t1) && RoundSound(o1, t1, e)
    ensures RoundSound(o, t, e)
  {
    StillComplete(o, o1);
    StillComplete(t, t1);
  }

  lemma {:induction false} RoundIsFair(r: Rules, ours: Row, theirs: Row, i: nat, log: seq<HitLog>, d: RoundDice)
    requires i <= |ours| == |theirs|
    ensures RoundFair(r, ours, theirs, log, RoundFrom(r, ours, theirs, i, log, d))
    ensures RoundSound(ours, theirs, RoundFrom(r, ours, theirs, i, log, d))
    decreases |ours| - i
  {
    var e := RoundFrom(r, ours, theirs, i, log, d);
    if i == |ours| {
      EndIsFair(r, ours, theirs, log);
    } else {
      var p := Place(r, ours, theirs, i, log, d);
      PlaceFair(r, ours, theirs, i, log, d);
      if !p.over {
        RoundIsFair(r, p.ours, p.theirs, i + 1, p.log.value, d);
        RoundThen(r, ours, theirs, log, p, e);
        SoundThen(ours, theirs, p.ours, p.theirs, e);
      }
    }
  }

  /** Either side may have the first move. */
  function PlayRound(r: Rules, att: Row, def: Row, d: RoundDice): (e: RoundEnd)
    requires |att| == |def|
    ensures e.Round? ==> |e.ours| == |e.theirs| == |att|
  {
    if d.first % 2 == 0 then
      match RoundFrom(r, def, att, 0, [], d)
      case Failed => Failed
      case Round(def', att', log, over) => Round(att', def', log, over)
    else RoundFrom(r, att, def, 0, [], d)
  }

  lemma PlayRoundFair(r: Rules, att: Row, def: Row, d: RoundDice)
    requires |att| == |def|
    ensures RoundFair(r, att, def, [], PlayRound(r, att, def, d)) && RoundSound(att, def, PlayRound(r, att, def, d))
  {
    if d.first % 2 == 0 {
      RoundIsFair(r, def, att, 0, [], d);
      var e := PlayRound(r, att, def, d);
      if e.Round? {
        FairSwapped(r, att, def, e.ours, e.theirs, Lost(att, def, e.ours, e.theirs));
      }
    } else {
      RoundIsFair(r, att, def, 0, [], d);
    }
  }

  datatype BattleEnd =
    | Fought(att: Row, def: Row, rounds: seq<Option<seq<HitLog>>>, over: bool)
    | Broken

  function BattleToll(rounds: seq<Option<seq<HitLog>>>): int {
    if rounds == [] then 0
    else BattleToll(rounds[..|rounds| - 1])
         + if rounds[|rounds| - 1].Some? then RoundToll(rounds[|rounds| - 1].value) else 0
  }

  /** The first `n` rounds of a battle, or fewer when it ends before. */
  function Rounds(r: Rules, att: Row, def: Row, d: nat -> RoundDice, n: nat): (e: BattleEnd)
    requires |att| == |def|
    ensures e.Fought? ==> |e.rounds| <= n && |e.att| == |e.def| == |att|
  {
    if n == 0 then Fought(att, def, [], false)
    else
      match Rounds(r, att, def, d, n - 1)
      case Broken => Broken
      case Fought(att1, def1, rounds, over) =>
        if over then Fought(att1, def1, rounds, true)
        else
          match PlayRound(r, att1, def1, d(n - 1))
          case Failed => Broken
          case Round(att2, def2, log, over2) => Fought(att2, def2, rounds + [log], over2)
  }

  /** Over the whole battle five times the soldiers lost on both sides are gained as experience;
      when every round left a log, the logs account for each soldier lost; and in a sane battle no
      unit ever gains soldiers or falls below zero. */
  lemma {:induction false} BattleConserves(r: Rules, att: Row, def: Row, d: nat -> RoundDice, n: nat)
    requires |att| == |def|
    ensures var e := Rounds(r, att, def, d, n); e.Fought? ==> Conserved(r, att, def, e.att, e.def, e.rounds)
  {
    if n > 0 {
      BattleConserves(r, att, def, d, n - 1);
      match Rounds(r, att, def, d, n - 1)
      case Broken =>
      case Fought(att1, def1, rounds, over) =>
        if !over {
          PlayRoundFair(r, att1, def1, d(n - 1));
          match PlayRound(r, att1, def1, d(n - 1))
          case Failed =>
          case Round(att2, def2, log, _) =>
            ConservedThen(r, att, def, att1, def1, rounds, att2, def2, log);
        }
    }
  }

  ghost predicate Conserved(r: Rules, att: Row, def: Row, att': Row, def': Row, rounds: seq<Option<seq<HitLog>>>) {
    && Fair(r, att, def, att', def', Lost(att, def, att', def'))
    && ((forall k :: 0 <= k < |rounds| ==> rounds[k].Some?) ==> BattleToll(rounds) == Lost(att, def, att', def'))
  }

  lemma ConservedThen(
      r: Rules, att: Row, def: Row, att1: Row, def1: Row, rounds: seq<Option<seq<HitLog>>>,
      att2: Row, def2: Row, log: Option<seq<HitLog>>)
    requires Conserved(r, att, def, att1, def1, rounds)
    requires Fair(r, att1, def1, att2, def2, Lost(att1, def1, att2, def2))
    requires log.Some? ==> RoundToll(log.value) == Lost(att1, def1, att2, def2)
    ensures Conserved(r, att, def, att2, def2, rounds + [log])
  {
    FairThen(r, att, def, att1, def1, att2, def2, Lost(att, def, att1, def1), Lost(att1, def1, att2, def2));
    TollGrows(rounds, log);
  }

  lemma TollGrows(rounds: seq<Option<seq<HitLog>>>, log: Option<seq<HitLog>>)
    ensures BattleToll(rounds + [log]) == BattleToll(rounds) + if log.Some? then RoundToll(log.value) else 0
    ensures (forall k :: 0 <= k < |rounds + [log]| ==> (rounds + [log])[k].Some?) ==>
      log.Some? && forall k :: 0 <= k < |rounds| ==> rounds[k].Some?
  {
    assert (rounds + [log])[..|rounds|] == rounds;
    if forall k :: 0 <= k < |rounds + [log]| ==> (rounds + [log])[k].Some? {
      assert (rounds + [log])[|rounds|].Some?;
      forall k | 0 <= k < |rounds|
        ensures rounds[k].Some?
      {
        assert (rounds + [log])[k].Some?;
      }
    }
  }

  ghost predicate Complete(row: Row) {
    !Missing(row) && forall k :: 0 <= k < |row| ==> row[k].value.position == k
  }

  lemma CompleteStays(row: Row, row': Row)
    requires Complete(row) && SameUnits(row, row')
    ensures Complete(row')
  {
    forall k | 0 <= k < |row'|
      ensures row'[k].Some? && row'[k].value.position == k
    {
      assert SameUnit(row[k], row'[k]);
    }
  }

  /** Between complete rows no round fails or goes unreported, and only the fall of a base ends the
      battle before its rounds are up. */
  lemma {:induction false} BattleEndsByBase(r: Rules, att: Row, def: Row, d: nat -> RoundDice, n: nat)
    requires |att| == |def| && Complete(att) && Complete(def)
    ensures var e := Rounds(r, att, def, d, n);
      && e.Fought? && Complete(e.att) && Complete(e.def)
      && (forall k :: 0 <= k < |e.rounds| ==> e.rounds[k].Some?)
      && (e.over || |e.rounds| == n)
      && (e.over ==> FallenBase(e.att, 0) || FallenBase(e.def, 0))
  {
    if n > 0 {
      BattleEndsByBase(r, att, def, d, n - 1);
      var e1 := Rounds(r, att, def, d, n - 1);
      if !e1.over {
        var e2 := PlayRound(r, e1.att, e1.def, d(n - 1));
        PlayRoundFair(r, e1.att, e1.def, d(n - 1));
        CompleteStays(e1.att, e2.ours);
        CompleteStays(e1.def, e2.theirs);
      }
    }
  }

  datatype Verdict = Defeat | Draw | Victory

  /** The verdict, from the attacker's side; a missing attacking base makes it fail. */
  function Judge(att: Row, def: Row): Option<Verdict> {
    if |att| < 3 || |def| < 3 || att[0].None? then None
    else if att[0].value.soldiers == 0 then Some(Defeat)
    else if def[0].Some? && def[0].value.soldiers != 0 then Some(Draw)
    else Some(Victory)
  }

  /** A battle between complete rows of three is a draw exactly when both bases stand, which takes all
      ten rounds; otherwise the verdict names the side whose base fell. */
  lemma VerdictNamesTheFallen(r: Rules, att: Row, def: Row, d: nat -> RoundDice)
    requires |att| == |def| == 3 && Complete(att) && Complete(def)
    ensures var e := Rounds(r, att, def, d, MAX_ROUND);
      && e.Fought?
      && (Judge(e.att, e.def) == Some(Defeat) <==> FallenBase(e.att, 0))
      && (Judge(e.att, e.def) == Some(Victory) <==> !FallenBase(e.att, 0) && FallenBase(e.def, 0))
      && (Judge(e.att, e.def) == Some(Draw) ==> |e.rounds| == MAX_ROUND)
  {
    BattleEndsByBase(r, att, def, d, MAX_ROUND);
    var e := Rounds(r, att, def, d, MAX_ROUND);
    assert Complete(e.att) && Complete(e.def);
    assert e.att[0].Some? && e.def[0].Some?;
  }

  /** The context built for a battle carries two empty rows; it always fights ten empty rounds and
      then fails to find the units whose soldiers it should write back. */
  lemma {:induction false} EmptyRowsFail(r: Rules, d: nat -> RoundDice, n: nat)
    ensures Rounds(r, [], [], d, n).Fought? && !Rounds(r, [], [], d, n).over
    ensures |Rounds(r, [], [], d, n).rounds| == n
    ensures Judge(Rounds(r, [], [], d, n).att, Rounds(r, [], [], d, n).def) == None
  {
    if n > 0 {
      EmptyRowsFail(r, d, n - 1);
    }
  }
}
