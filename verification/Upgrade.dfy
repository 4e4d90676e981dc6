/** Facility upgrades and what they cost: the part of the upgrade request that changes the player.

    A facility whose `upTime` is positive has an upgrade that is paid for and not yet counted into
    its level; the next request settles it. */
module Upgrades {
  import opened Wrappers
  import opened ChangeLog
  import opened Players
  import opened PlayerEntities

  /** The level table of one facility type. `maxLevel` is the number of level records. */
  datatype LevelTable = LevelTable(needs: map<int, Resources>, maxLevel: nat)

  type Config = map<int, LevelTable>

  datatype Outcome =
    | Upgraded(at: nat)
    | NotFound | NoConfig | Upgrading | LevelMax | NoLevelConfig | NotEnough
    | NoResource | NoWorld | WrongCity

  datatype Account = Account(resource: Resources, facility: seq<Facility>)

  function Plus(a: Resources, b: Resources): Resources {
    Resources(a.wood + b.wood, a.iron + b.iron, a.stone + b.stone, a.grain + b.grain, a.gold + b.gold,
      a.decree + b.decree, a.lastClaim)
  }

  function Less(a: Resources, b: Resources): Resources {
    Resources(a.wood - b.wood, a.iron - b.iron, a.stone - b.stone, a.grain - b.grain, a.gold - b.gold,
      a.decree - b.decree, a.lastClaim)
  }

  predicate IsEnough(r: Resources, cost: Resources) {
    && r.wood >= cost.wood && r.iron >= cost.iron && r.stone >= cost.stone
    && r.grain >= cost.grain && r.gold >= cost.gold && r.decree >= cost.decree
  }

  predicate NonNegative(r: Resources) {
    r.wood >= 0 && r.iron >= 0 && r.stone >= 0 && r.grain >= 0 && r.gold >= 0 && r.decree >= 0
  }

  /** Consume either takes the whole cost or nothing; it mutates through the child's setters, which
      leave a mark exactly when the state has changed. */
  method Consume(r: Child<Resources>, cost: Resources) returns (paid: bool)
    modifies r
    ensures paid == IsEnough(old(r.s), cost)
    ensures r.View() == Touch(old(r.View()), if paid then Less(old(r.s), cost) else old(r.s))
  {
    if !IsEnough(r.s, cost) {
      return false;
    }
    var _ := r.Set(r.s.(wood := r.s.wood - cost.wood));
    var _ := r.Set(r.s.(iron := r.s.iron - cost.iron));
    var _ := r.Set(r.s.(stone := r.s.stone - cost.stone));
    var _ := r.Set(r.s.(grain := r.s.grain - cost.grain));
    var _ := r.Set(r.s.(gold := r.s.gold - cost.gold));
    var _ := r.Set(r.s.(decree := r.s.decree - cost.decree));
    return true;
  }

  method Gain(r: Child<Resources>, gain: Resources)
    modifies r
    ensures r.View() == Touch(old(r.View()), Plus(old(r.s), gain))
  {
    var _ := r.Set(r.s.(wood := r.s.wood + gain.wood));
    var _ := r.Set(r.s.(iron := r.s.iron + gain.iron));
    var _ := r.Set(r.s.(stone := r.s.stone + gain.stone));
    var _ := r.Set(r.s.(grain := r.s.grain + gain.grain));
    var _ := r.Set(r.s.(gold := r.s.gold + gain.gold));
    var _ := r.Set(r.s.(decree := r.s.decree + gain.decree));
  }

  /** Giving back what was consumed undoes it, and consuming what was gained undoes that. */
  lemma GainUndoesConsume(r: Resources, cost: Resources)
    ensures Plus(Less(r, cost), cost) == r && Less(Plus(r, cost), cost) == r
    ensures NonNegative(r) ==> IsEnough(Plus(r, cost), cost)
    ensures IsEnough(r, cost) ==> NonNegative(Less(r, cost))
  {
  }

  // ---------- The request ----------

  /** The first facility of the type, if any. */
  function Find(fs: seq<Facility>, fType: int): (i: nat)
    ensures i <= |fs| && (i < |fs| ==> fs[i].fType == fType)
    ensures forall k :: 0 <= k < i ==> fs[k].fType != fType
  {
    if fs == [] || fs[0].fType == fType then 0 else 1 + Find(fs[1..], fType)
  }

  /** A finished upgrade is counted into the level, unless the level is already the highest. */
  function Settle(v: Facility, maxLevel: nat): Facility {
    if v.upTime <= 0 then v
    else if v.level < maxLevel then v.(level := v.level + 1, upTime := 0)
    else v.(upTime := 0)
  }

  /** The second half of a request: facility `i` stands settled. */
  function PayFor(a: Account, i: nat, table: LevelTable, now: int): (Account, Outcome)
    requires i < |a.facility|
  {
    var v := a.facility[i];
    if v.level >= table.maxLevel then (a, LevelMax)
    else if v.level + 1 !in table.needs then (a, NoLevelConfig)
    else if !IsEnough(a.resource, table.needs[v.level + 1]) then (a, NotEnough)
    else (Account(Less(a.resource, table.needs[v.level + 1]), a.facility[i := v.(upTime := now)]), Upgraded(i))
  }

  function Up(a: Account, conf: Config, fType: int, now: int): (Account, Outcome) {
    var i := Find(a.facility, fType);
    if i == |a.facility| then (a, NotFound)
    else if fType !in conf || conf[fType].maxLevel == 0 then (a, NoConfig)
    else if a.facility[i].upTime > 0 && a.facility[i].upTime > now then (a, Upgrading)
    else
      var v := Settle(a.facility[i], conf[fType].maxLevel);
      PayFor(a.(facility := a.facility[i := v]), i, conf[fType], now)
  }

  ghost function AccountOf(p: PlayerEntity): Account
    requires p.resource != null
    reads p, p.resource
  {
    Account(p.resource.s, Items(p.facility.cur))
  }

  const INT8 := 0x100
  const INT32 := 0x1_0000_0000

  /** A conversion to a signed integer type with `range` values keeps the low bits. */
  function Narrow(n: int, range: int): int
    requires range > 0
  {
    if 2 * (n % range) >= range then n % range - range else n % range
  }

  /** Why a request is refused before the facilities are looked at: the player has no resource child, the
      actor of the player's world is not known, or the city is not the player's, whose id is cut to 32 bits
      for the comparison. */
  function Refusal(hasResource: bool, hasWorld: bool, cityId: int, requested: int): Option<Outcome> {
    if !hasResource then Some(NoResource)
    else if !hasWorld then Some(NoWorld)
    else if requested <= 0 || requested != Narrow(cityId, INT32) then Some(WrongCity)
    else None
  }

  /** The request on the entity; `fType` is the type asked for, of which eight bits are kept. Whatever the
      request changes, it keeps every difference from any earlier state `was` reported. */
  method HandleUpFacility(
      p: PlayerEntity, conf: Config, hasWorld: bool, requested: int, fType: int, now: int, ghost was: State)
    returns (out: Outcome)
    requires Reports(p.View(), was)
    modifies p`facility, p`dirty, p`trace, p.resource
    ensures Reports(p.View(), was)
    ensures match Refusal(old(p.resource) != null, hasWorld, old(p.cityId), requested)
      case Some(reason) => out == reason && p.View() == old(p.View())
      case None => p.resource != null && (AccountOf(p), out) == Up(old(AccountOf(p)), conf, Narrow(fType, INT8), now)
  {
    if p.resource == null {
      return NoResource;
    }
    if !hasWorld {
      return NoWorld;
    }
    if requested <= 0 || requested != Narrow(p.cityId, INT32) {
      return WrongCity;
    }
    out := UpOwn(p, conf, Narrow(fType, INT8), now, was);
  }

  /** The request once it is let in. */
  method UpOwn(p: PlayerEntity, conf: Config, fType: int, now: int, ghost was: State) returns (out: Outcome)
    requires Reports(p.View(), was) && p.resource != null
    modifies p`facility, p`dirty, p`trace, p.resource
    ensures Reports(p.View(), was)
    ensures (AccountOf(p), out) == Up(old(AccountOf(p)), conf, fType, now)
  {
    var fs := if p.facility.cur.None? then [] else p.facility.cur.value;
    var i := 0;
    while i < |fs| && fs[i].fType != fType
      invariant 0 <= i <= |fs|
      invariant i + Find(fs[i..], fType) == Find(fs, fType)
    {
      assert fs[i..][1..] == fs[i + 1..];
      i := i + 1;
    }
    if i == |fs| {
      return NotFound;
    }
    if fType !in conf || conf[fType].maxLevel == 0 {
      return NoConfig;
    }
    var v := fs[i];
    if v.upTime > 0 && v.upTime > now {
      return Upgrading;
    }
    SettleAt(p, i, conf[fType].maxLevel, was);
    out := Pay(p, i, conf[fType], now, was);
  }

  /** A finished upgrade is settled through the callback of UpdateFacilityAt. */
  method SettleAt(p: PlayerEntity, i: nat, maxLevel: nat, ghost was: State)
    requires Reports(p.View(), was) && p.resource != null && i < |Items(p.facility.cur)|
    modifies p`facility, p`dirty, p`trace
    ensures Reports(p.View(), was)
    ensures AccountOf(p) == old(AccountOf(p)).(
      facility := Items(old(p.facility.cur))[i := Settle(Items(old(p.facility.cur))[i], maxLevel)])
  {
    ghost var before := p.View();
    var v := p.facility.cur.value[i];
    if v.upTime > 0 {
      if v.level < maxLevel {
        var _ := p.UpdateFacilityAt(i, (f: Facility) => f.(level := v.level + 1, upTime := 0));
      } else {
        var _ := p.UpdateFacilityAt(i, (f: Facility) => f.(upTime := 0));
      }
      OpKeepsReports(before, OnFacility(UpdateAt(i, Settle(v, maxLevel))), was);
    }
  }

  method Pay(p: PlayerEntity, i: nat, table: LevelTable, now: int, ghost was: State) returns (out: Outcome)
    requires Reports(p.View(), was) && p.resource != null && i < |Items(p.facility.cur)|
    modifies p`facility, p`dirty, p`trace, p.resource
    ensures Reports(p.View(), was)
    ensures (AccountOf(p), out) == PayFor(old(AccountOf(p)), i, table, now)
  {
    var v := p.facility.cur.value[i];
    if v.level >= table.maxLevel {
      return LevelMax;
    }
    if v.level + 1 !in table.needs {
      return NoLevelConfig;
    }
    var paid := ConsumeOf(p, table.needs[v.level + 1], was);
    if !paid {
      return NotEnough;
    }
    StampAt(p, i, now, was);
    return Upgraded(i);
  }

  method ConsumeOf(p: PlayerEntity, cost: Resources, ghost was: State) returns (paid: bool)
    requires Reports(p.View(), was) && p.resource != null
    modifies p.resource
    ensures Reports(p.View(), was) && paid == IsEnough(old(p.resource.s), cost)
    ensures p.resource.s == if paid then Less(old(p.resource.s), cost) else old(p.resource.s)
  {
    ghost var before := p.View();
    paid := Consume(p.resource, cost);
    OpKeepsReports(before, OnResource(ChangeKid(p.resource.s)), was);
    assert p.View() == Apply(before, OnResource(ChangeKid(p.resource.s)));
  }

  method StampAt(p: PlayerEntity, i: nat, now: int, ghost was: State)
    requires Reports(p.View(), was) && i < |Items(p.facility.cur)|
    modifies p`facility, p`dirty, p`trace
    ensures Reports(p.View(), was)
    ensures Items(p.facility.cur) ==
      Items(old(p.facility.cur))[i := Items(old(p.facility.cur))[i].(upTime := now)]
  {
    ghost var before := p.View();
    ghost var v := p.facility.cur.value[i];
    var _ := p.UpdateFacilityAt(i, (f: Facility) => f.(upTime := now));
    OpKeepsReports(before, OnFacility(UpdateAt(i, v.(upTime := now))), was);
  }

  /** A request is let in exactly if nothing is missing and it names the player's city, whose id a message
      can name only if it fits into 32 bits. */
  lemma LetInExactly(hasResource: bool, hasWorld: bool, cityId: int, requested: int)
    requires -0x8000_0000 <= cityId < 0x8000_0000
    ensures Refusal(hasResource, hasWorld, cityId, requested) == None <==>
      hasResource && hasWorld && requested == cityId > 0
  {
    NarrowFits(cityId, INT32);
  }

  /** Exactly the numbers that fit are kept. */
  lemma NarrowFits(n: int, range: int)
    requires range > 0
    ensures -range <= 2 * n < range <==> Narrow(n, range) == n
  {
    assert n == range * (n / range) + n % range;
    Multiple(n / range, range);
  }

  lemma Multiple(q: int, d: int)
    requires d > 0
    ensures q >= 1 ==> d * q >= d
    ensures q <= -2 ==> d * q <= -2 * d
  {
  }

  // ---------- What a facility has cost ----------

  /** The levels paid for: the level reached and one more while an upgrade is pending. */
  function Paid(f: Facility): int {
    f.level + if f.upTime > 0 then 1 else 0
  }

  function Need(table: LevelTable, level: int): Resources {
    if level in table.needs then table.needs[level] else NO_RESOURCES
  }

  /** The summed cost of levels 1 to `n`. */
  function CostTo(table: LevelTable, n: int): Resources
    decreases n
  {
    if n <= 0 then NO_RESOURCES else Plus(CostTo(table, n - 1), Need(table, n))
  }

  ghost predicate Bounded(conf: Config, fs: seq<Facility>) {
    forall k :: 0 <= k < |fs| && fs[k].fType in conf ==> 0 <= fs[k].level && Paid(fs[k]) <= conf[fs[k].fType].maxLevel
  }

  /** What one request took from the player for facility `i`. */
  function Price(a: Account, conf: Config, fType: int, now: int, i: nat): Resources {
    var (a', out) := Up(a, conf, fType, now);
    if out == Upgraded(i) then Less(a.resource, a'.resource) else NO_RESOURCES
  }

  predicate Free(r: Resources) {
    r.(lastClaim := 0) == NO_RESOURCES
  }

  /** A request keeps every facility's type, every other facility, and takes something only for an
      upgrade it grants. */
  lemma UpFrame(a: Account, conf: Config, fType: int, now: int)
    ensures var (a', out) := Up(a, conf, fType, now);
      && |a'.facility| == |a.facility|
      && (forall k :: 0 <= k < |a.facility| ==> a'.facility[k].fType == a.facility[k].fType)
      && (forall k :: 0 <= k < |a.facility| && k != Find(a.facility, fType) ==> a'.facility[k] == a.facility[k])
      && (!out.Upgraded? ==> a'.resource == a.resource)
      && (out.Upgraded? ==> out.at == Find(a.facility, fType) < |a.facility|)
      && (NonNegative(a.resource) ==> NonNegative(a'.resource))
  {
  }

  /** A refused request leaves the number of levels paid for as it was. */
  lemma RefusedPaysNothing(a: Account, conf: Config, fType: int, now: int, i: nat)
    requires Bounded(conf, a.facility) && i < |a.facility| && a.facility[i].fType in conf
    requires Up(a, conf, fType, now).1 != Upgraded(i)
    ensures var f := Up(a, conf, fType, now).0.facility[i];
      f.level >= 0 && Paid(f) == Paid(a.facility[i]) && Price(a, conf, fType, now, i) == NO_RESOURCES
  {
    UpFrame(a, conf, fType, now);
  }

  /** A granted one pays for the level above those paid for, and records the clock as pending. */
  lemma GrantedPaysNext(a: Account, conf: Config, fType: int, now: int, i: nat)
    requires Bounded(conf, a.facility) && i < |a.facility| && a.facility[i].fType in conf
    requires Up(a, conf, fType, now).1 == Upgraded(i)
    ensures var f := Up(a, conf, fType, now).0.facility[i];
      var table := conf[a.facility[i].fType];
      && f.level == Paid(a.facility[i]) < table.maxLevel && f.upTime == now
      && f.level + 1 in table.needs
      && Price(a, conf, fType, now, i) == table.needs[f.level + 1].(lastClaim := a.resource.lastClaim)
  {
    UpFrame(a, conf, fType, now);
  }

  /** One request: the levels paid for and what was taken for them stay in step, exactly if no
      upgrade of the facility was granted, or the clock reads a positive time, or the level is free. */
  lemma UpPays(a: Account, conf: Config, fType: int, now: int, i: nat)
    requires Bounded(conf, a.facility) && i < |a.facility| && a.facility[i].fType in conf
    ensures var f := Up(a, conf, fType, now).0.facility[i];
      var table := conf[a.facility[i].fType];
      && 0 <= f.level && Paid(a.facility[i]) <= Paid(f) <= Paid(a.facility[i]) + 1 && Paid(f) <= table.maxLevel
      && (InStep(table, a.facility[i], f, Price(a, conf, fType, now, i)) <==>
          Up(a, conf, fType, now).1 != Upgraded(i) || now > 0 || Free(Price(a, conf, fType, now, i)))
  {
    var table := conf[a.facility[i].fType];
    var f := Up(a, conf, fType, now).0.facility[i];
    if Up(a, conf, fType, now).1 == Upgraded(i) {
      GrantedPaysNext(a, conf, fType, now, i);
      NextLevelCosts(table, f.level, Price(a, conf, fType, now, i));
      PlusFree(CostTo(table, f.level), Price(a, conf, fType, now, i));
    } else {
      RefusedPaysNothing(a, conf, fType, now, i);
      PlusNothing(CostTo(table, Paid(a.facility[i])));
    }
  }

  /** Nothing of the upgrade under way is left when a request gets to the levels: the facility stands at the level
      paid for. */
  predicate GetsToLevels(a: Account, conf: Config, fType: int, now: int, i: nat) {
    && i < |a.facility| && a.facility[i].fType == fType && (forall k :: 0 <= k < i ==> a.facility[k].fType != fType)
    && fType in conf && a.facility[i].upTime <= (if now > 0 then now else 0)
  }

  /** An upgrade is granted exactly if the facility is there, no upgrade of it is under way, it is not at the
      highest level, the next level is configured and there is enough of everything. */
  lemma GrantedExactly(a: Account, conf: Config, fType: int, now: int, i: nat)
    requires Bounded(conf, a.facility)
    ensures Up(a, conf, fType, now).1 == Upgraded(i) <==>
      && GetsToLevels(a, conf, fType, now, i)
      && var next := Paid(a.facility[i]) + 1;
      && next <= conf[fType].maxLevel && next in conf[fType].needs && IsEnough(a.resource, conf[fType].needs[next])
  {
    var j := Find(a.facility, fType);
    if GetsToLevels(a, conf, fType, now, i) {
      assert j == i;
    }
  }

  /** A refused request that gets so far leaves the facility at the level paid for, with nothing under way. */
  lemma RefusedSettles(a: Account, conf: Config, fType: int, now: int, i: nat)
    requires Bounded(conf, a.facility) && GetsToLevels(a, conf, fType, now, i) && conf[fType].maxLevel > 0
    requires Up(a, conf, fType, now).1 != Upgraded(i)
    ensures var f := a.facility[i];
      Up(a, conf, fType, now).0 == a.(facility := a.facility[i := f.(level := Paid(f), upTime := if f.upTime > 0 then 0 else f.upTime)])
  {
    assert Find(a.facility, fType) == i;
  }

  /** At the highest level a finished upgrade is cleared and the request refused. */
  lemma TopLevelSettles(a: Account, conf: Config, fType: int, now: int, i: nat)
    requires GetsToLevels(a, conf, fType, now, i) && a.facility[i].level >= conf[fType].maxLevel > 0
    ensures Up(a, conf, fType, now).1 == LevelMax
    ensures a.facility[i].upTime > 0 ==>
      Up(a, conf, fType, now).0 == a.(facility := a.facility[i := a.facility[i].(upTime := 0)])
  {
    assert Find(a.facility, fType) == i;
  }

  lemma NextLevelCosts(table: LevelTable, n: nat, price: Resources)
    requires Need(table, n + 1) == price.(lastClaim := Need(table, n + 1).lastClaim)
    ensures CostTo(table, n + 1) == Plus(CostTo(table, n), price)
  {
    var c := CostTo(table, n);
    assert CostTo(table, n + 1) == Plus(c, Need(table, n + 1));
    PlusIgnoresClaim(c, Need(table, n + 1), price);
  }

  lemma PlusIgnoresClaim(r: Resources, a: Resources, b: Resources)
    requires a == b.(lastClaim := a.lastClaim)
    ensures Plus(r, a) == Plus(r, b)
  {
  }

  lemma PlusFree(r: Resources, price: Resources)
    ensures r == Plus(r, price) <==> Free(price)
  {
  }

  /** `price` is what separates the costs of the levels paid for before and after. */
  predicate InStep(table: LevelTable, before: Facility, after: Facility, price: Resources) {
    CostTo(table, Paid(after)) == Plus(CostTo(table, Paid(before)), price)
  }

  lemma PlusNothing(r: Resources)
    ensures Plus(r, NO_RESOURCES) == r
  {
  }

  // ---------- Runs ----------

  datatype Request = Request(fType: int, now: int)

  function Final(a: Account, conf: Config, rs: seq<Request>): Account
    decreases |rs|
  {
    if rs == [] then a else Final(Up(a, conf, rs[0].fType, rs[0].now).0, conf, rs[1..])
  }

  function Spent(a: Account, conf: Config, rs: seq<Request>, i: nat): Resources
    decreases |rs|
  {
    if rs == [] then NO_RESOURCES
    else Plus(Spent(Up(a, conf, rs[0].fType, rs[0].now).0, conf, rs[1..], i), Price(a, conf, rs[0].fType, rs[0].now, i))
  }

  lemma BoundedStays(a: Account, conf: Config, fType: int, now: int)
    requires Bounded(conf, a.facility)
    ensures Bounded(conf, Up(a, conf, fType, now).0.facility)
  {
    var fs := Up(a, conf, fType, now).0.facility;
    UpFrame(a, conf, fType, now);
    forall k | 0 <= k < |fs| && fs[k].fType in conf
      ensures 0 <= fs[k].level && Paid(fs[k]) <= conf[fs[k].fType].maxLevel
    {
      UpPays(a, conf, fType, now, k);
    }
  }

  /** Over any run of requests at positive clock readings, what was spent on a facility is the summed
      cost of the levels paid for since, that number never exceeds the highest level or falls, and no
      resource becomes negative. */
  lemma {:induction false} RunPays(a: Account, conf: Config, rs: seq<Request>, i: nat)
    requires Bounded(conf, a.facility) && i < |a.facility| && a.facility[i].fType in conf
    requires forall k :: 0 <= k < |rs| ==> rs[k].now > 0
    ensures var table := conf[a.facility[i].fType];
      var a' := Final(a, conf, rs);
      && |a'.facility| == |a.facility| && a'.facility[i].fType == a.facility[i].fType
      && CostTo(table, Paid(a'.facility[i])) == Plus(CostTo(table, Paid(a.facility[i])), Spent(a, conf, rs, i))
      && Paid(a.facility[i]) <= Paid(a'.facility[i]) <= table.maxLevel
      && (NonNegative(a.resource) ==> NonNegative(a'.resource))
    decreases |rs|
  {
    if rs == [] {
      PlusNothing(CostTo(conf[a.facility[i].fType], Paid(a.facility[i])));
    } else {
      var b := Up(a, conf, rs[0].fType, rs[0].now).0;
      UpFrame(a, conf, rs[0].fType, rs[0].now);
      UpPays(a, conf, rs[0].fType, rs[0].now, i);
      BoundedStays(a, conf, rs[0].fType, rs[0].now);
      RunPays(b, conf, rs[1..], i);
      PlusAssociates(CostTo(conf[a.facility[i].fType], Paid(a.facility[i])),
        Price(a, conf, rs[0].fType, rs[0].now, i), Spent(b, conf, rs[1..], i));
    }
  }

  lemma PlusAssociates(base: Resources, first: Resources, rest: Resources)
    ensures Plus(Plus(base, first), rest) == Plus(base, Plus(rest, first))
  {
  }

  ghost predicate NoneFuture(fs: seq<Facility>, now: int) {
    forall k :: 0 <= k < |fs| ==> fs[k].upTime <= now
  }

  predicate Ordered(rs: seq<Request>) {
    forall i, j :: 0 <= i < j < |rs| ==> rs[i].now <= rs[j].now
  }

  /** The instant recorded with a pending upgrade is that of the request, not of its completion.  So
      as long as the clock does not run backwards no request is ever told to wait, and every upgrade is
      complete by the next request. */
  lemma {:induction false} NeverToldToWait(a: Account, conf: Config, rs: seq<Request>, k: nat)
    requires k < |rs| && Ordered(rs) && NoneFuture(a.facility, rs[0].now)
    ensures Up(Final(a, conf, rs[..k]), conf, rs[k].fType, rs[k].now).1 != Upgrading
    decreases k
  {
    if k > 0 {
      var b := Up(a, conf, rs[0].fType, rs[0].now).0;
      UpFrame(a, conf, rs[0].fType, rs[0].now);
      assert NoneFuture(b.facility, rs[1..][0].now);
      assert rs[..k][1..] == rs[1..][..k - 1] && rs[..k][0] == rs[0];
      NeverToldToWait(b, conf, rs[1..], k - 1);
    }
  }
}
