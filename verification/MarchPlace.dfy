/** Where a marching army is, and what attack, call back and arrival leave of its orders, field by field. */
module MarchPlaces {
  import opened Wrappers
  import opened Marching

  // ---------- The place of a marching army ----------

  /** `x` is the quotient `n / d`, cut towards zero. */
  predicate CutQuotient(x: int, n: int, d: int) {
    && (n >= 0 ==> x * d <= n < (x + 1) * d)
    && (n <= 0 ==> (x - 1) * d < n <= x * d)
  }

  lemma FloorBounds(r: real)
    ensures r.Floor as real <= r < (r.Floor + 1) as real
  {
  }

  lemma FloorCuts(r: real, n: int, d: int)
    requires d > 0 && r * d as real == n as real
    ensures r.Floor * d <= n < (r.Floor + 1) * d
  {
    var x := r.Floor;
    FloorBounds(r);
    BelowProduct(x, r, n, d);
    AboveProduct(r, x + 1, n, d);
  }

  lemma BelowProduct(x: int, r: real, n: int, d: int)
    requires d > 0 && r * d as real == n as real && x as real <= r
    ensures x * d <= n
  {
    Scaled(x as real, r, d as real);
    RealProduct(x, d);
    InWholes(x * d, n);
  }

  lemma AboveProduct(r: real, x: int, n: int, d: int)
    requires d > 0 && r * d as real == n as real && r < x as real
    ensures n < x * d
  {
    ScaledStrictly(r, x as real, d as real);
    RealProduct(x, d);
    InWholes(n, x * d);
  }

  lemma RealProduct(a: int, d: int)
    ensures (a * d) as real == a as real * d as real
  {
  }

  lemma InWholes(a: int, b: int)
    ensures a as real <= b as real ==> a <= b
    ensures a as real < b as real ==> a < b
  {
  }

  lemma TruncateCuts(r: real, n: int, d: int)
    requires d > 0 && r * d as real == n as real
    ensures CutQuotient(Truncate(r), n, d)
  {
    SignOf(r, n, d);
    if n >= 0 {
      FloorCuts(r, n, d);
    }
    if n <= 0 {
      assert (-r) * d as real == (-n) as real;
      FloorCuts(-r, -n, d);
      Mirrored((-r).Floor, n, d);
    }
  }

  lemma Mirrored(f: int, n: int, d: int)
    requires f * d <= -n < (f + 1) * d
    ensures (-f - 1) * d < n <= -f * d
  {
    assert (-f - 1) * d == -((f + 1) * d) && -f * d == -(f * d);
  }

  lemma SignOf(r: real, n: int, d: int)
    requires d > 0 && r * d as real == n as real
    ensures (n >= 0 ==> r >= 0.0) && (n <= 0 ==> r <= 0.0)
  {
    if r < 0.0 {
      ScaledStrictly(r, 0.0, d as real);
    }
    if r > 0.0 {
      ScaledStrictly(0.0, r, d as real);
    }
  }

  lemma Scaled(a: real, b: real, d: real)
    requires a <= b && d > 0.0
    ensures a * d <= b * d
  {
  }

  lemma ScaledStrictly(a: real, b: real, d: real)
    requires a < b && d > 0.0
    ensures a * d < b * d
  {
  }

  /** The point `passed / total` of the way along, cut towards zero: the way from the start, counted in
      units of `1 / total`. */
  lemma BetweenCuts(from: int, to: int, passed: int, total: int)
    requires 0 < passed < total
    ensures CutQuotient(Between(from, to, passed, total), from * total + (to - from) * passed, total)
  {
    var p := passed as real / total as real;
    var way := (to - from) as real;
    var r := from as real + PartOf(way, p);
    assert p * total as real == passed as real;
    ScaledSum(from as real, p, way, total as real);
    assert p * total as real * way == passed as real * way;
    assert (from * total) as real == from as real * total as real;
    assert ((to - from) * passed) as real == way * passed as real;
    TruncateCuts(r, from * total + (to - from) * passed, total);
  }

  lemma ScaledSum(a: real, p: real, way: real, t: real)
    ensures (a + PartOf(way, p)) * t == a * t + p * t * way
  {
    assert PartOf(way, p) * t == p * way * t;
    assert p * way * t == p * t * way;
  }

  /** A running army with a way to go: once it has set out, and before it is there, each coordinate is the
      start plus the part of the way that the time passed is of the whole time, cut towards zero. */
  lemma PlaceOnTheWay(a: Army, now: int)
    requires a.motion == Running && a.start < now < a.end
    ensures var passed, total := now - a.start, a.end - a.start;
      && CutQuotient(MarchPos(a, now).x, a.from.x * total + (a.to.x - a.from.x) * passed, total)
      && CutQuotient(MarchPos(a, now).y, a.from.y * total + (a.to.y - a.from.y) * passed, total)
  {
    BetweenCuts(a.from.x, a.to.x, now - a.start, a.end - a.start);
    BetweenCuts(a.from.y, a.to.y, now - a.start, a.end - a.start);
  }

  lemma PlaceAtTheEnds(a: Army, now: int)
    requires a.motion == Running && a.start < a.end
    ensures now <= a.start ==> MarchPos(a, now) == a.from
    ensures now >= a.end ==> MarchPos(a, now) == a.to
  {
  }

  /** From `from` by `x1` and `x2` to `to` without turning. */
  predicate Onward(from: int, x1: int, x2: int, to: int) {
    from <= x1 <= x2 <= to || from >= x1 >= x2 >= to
  }

  lemma CutGrows(x1: int, n1: int, x2: int, n2: int, d: int)
    requires d > 0 && n1 <= n2 && CutQuotient(x1, n1, d) && CutQuotient(x2, n2, d)
    ensures x1 <= x2
  {
    if x2 < x1 {
      if n1 >= 0 {
        Product(x2 + 1, x1, d);
      } else if n2 <= 0 {
        Product(x2, x1 - 1, d);
      } else {
        Product(x2 + 1, x1, d);
        AtOrBelowZero(x1, n1, d);
        AtOrAboveZero(x2, n2, d);
      }
    }
  }

  lemma Product(a: int, b: int, d: int)
    requires a <= b && d > 0
    ensures a * d <= b * d
  {
  }

  lemma AtOrBelowZero(x: int, n: int, d: int)
    requires d > 0 && n <= 0 && CutQuotient(x, n, d)
    ensures x <= 0
  {
    if x >= 1 {
      Product(0, x - 1, d);
    }
  }

  lemma AtOrAboveZero(x: int, n: int, d: int)
    requires d > 0 && n >= 0 && CutQuotient(x, n, d)
    ensures x >= 0
  {
    if x <= -1 {
      Product(x + 1, 0, d);
    }
  }

  lemma BetweenOnward(from: int, to: int, p1: int, p2: int, total: int)
    requires 0 < p1 <= p2 < total
    ensures Onward(from, Between(from, to, p1, total), Between(from, to, p2, total), to)
  {
    BetweenStays(from, to, p1, total);
    BetweenStays(from, to, p2, total);
    BetweenCuts(from, to, p1, total);
    BetweenCuts(from, to, p2, total);
    var x1, x2 := Between(from, to, p1, total), Between(from, to, p2, total);
    var n1, n2 := from * total + (to - from) * p1, from * total + (to - from) * p2;
    if from <= to {
      Steps(to - from, p1, p2);
      CutGrows(x1, n1, x2, n2, total);
    } else {
      Steps(from - to, p1, p2);
      assert (to - from) * p1 == -((from - to) * p1) && (to - from) * p2 == -((from - to) * p2);
      CutGrows(x2, n2, x1, n1, total);
    }
  }

  lemma Steps(way: int, p1: int, p2: int)
    requires way >= 0 && p1 <= p2
    ensures way * p1 <= way * p2
  {
  }

  /** As the clock advances a running army moves from where it set out towards where it is going, in both
      coordinates, and never back. */
  lemma NeverBackwards(a: Army, t1: int, t2: int)
    requires a.motion == Running && a.start < a.end && t1 <= t2
    ensures Onward(a.from.x, MarchPos(a, t1).x, MarchPos(a, t2).x, a.to.x)
    ensures Onward(a.from.y, MarchPos(a, t1).y, MarchPos(a, t2).y, a.to.y)
  {
    MarchStaysInside(a, t1);
    MarchStaysInside(a, t2);
    if a.start < t1 && t2 < a.end {
      BetweenOnward(a.from.x, a.to.x, t1 - a.start, t2 - a.start, a.end - a.start);
      BetweenOnward(a.from.y, a.to.y, t1 - a.start, t2 - a.start, a.end - a.start);
    }
  }

  // ---------- Call back ----------

  /** `pos` is where the army is at `seen`: the code answers the corner of the map for a march without duration. */
  ghost predicate IsPlaceAt(a: Army, seen: int, pos: Pos) {
    var passed, total := seen - a.start, a.end - a.start;
    && (total <= 0 ==> pos == Pos(0, 0))
    && (total > 0 && passed <= 0 ==> pos == a.from)
    && (total > 0 && passed >= total ==> pos == a.to)
    && (0 < passed < total ==>
          && CutQuotient(pos.x, a.from.x * total + (a.to.x - a.from.x) * passed, total)
          && CutQuotient(pos.y, a.from.y * total + (a.to.y - a.from.y) * passed, total))
  }

  /** An army called back turns round where it is and goes to where it came from, in ten seconds; its march
      says so and is the one filed under the turning point. */
  lemma BackTurnsRoundInPlace(w: World, player: int, id: int, now: int, seen: int)
    requires Inv(w) && Back(w, player, id, now, seen).1
    ensures var a, w' := w.armies[player][id], Back(w, player, id, now, seen).0;
      && GetArmy(w', player, id).Some? && Flight(w', player, id).Some?
      && var b, m := GetArmy(w', player, id).value, Flight(w', player, id).value;
      && IsPlaceAt(a, seen, b.from) && b.to == a.from
      && b.cmd == Retreat && b.motion == Running && b.start == now && b.end == now + 10_000_000_000
      && m == March(player, a.alliance, id, b.from, a.from, now, now + 10_000_000_000)
      && m in At(w'.cells, b.from.x + 200 * b.from.y)
      && b.generals == a.generals && b.soldiers == a.soldiers
  {
    var a, w' := w.armies[player][id], Back(w, player, id, now, seen).0;
    BackKeepsInv(w, player, id, now, seen);
    TurnRoundRepeats(a, now, seen);
    if a.start < a.end {
      PlaceAtTheEnds(a, seen);
    }
    if a.start < seen < a.end {
      PlaceOnTheWay(a, seen);
    }
    LiveMembers(w'.marches);
  }

  // ---------- Attack ----------

  /** An attack is accepted exactly if the player has a main city, and somebody else's cell is there, not of
      the home city's alliance and no longer under protection. */
  lemma AttackAcceptedExactly(w: World, player: int, target: Pos, a: Army, home: Option<City>, now: int)
    ensures Attack(w, player, target, a, home, now).1 <==>
      && home.Some? && player in w.cities
      && var c := target.x + 200 * target.y;
      && c in w.land && w.land[c].owner != 0 && w.land[c].owner != player
      && (home.value.alliance == 0 || w.land[c].alliance != home.value.alliance)
      && now / 1_000_000 >= w.land[c].occupyTime / 1_000_000 + w.warFree
    ensures !Attack(w, player, target, a, home, now).1 ==> Attack(w, player, target, a, home, now).0 == w
  {
  }

  /** An accepted attack stores the army with its new orders and its troops as they were, puts its march into the
      table, and leaves every other army and march alone. */
  lemma AttackStores(w: World, player: int, target: Pos, a: Army, home: Option<City>, now: int)
    requires Attack(w, player, target, a, home, now).1 && a.player == player && HasArmyState(a)
    ensures var w', c := Attack(w, player, target, a, home, now).0, w.land[target.x + 200 * target.y];
      && GetArmy(w', player, a.id) == Some(a.(from := home.value.pos, to := c.pos, cmd := Strike, motion := Running,
                                             start := now, end := now + 10_000_000_000))
      && Flight(w', player, a.id) ==
           Some(March(player, a.alliance, a.id, home.value.pos, c.pos, now, now + 10_000_000_000))
      && (forall p, i :: (p, i) != (player, a.id) ==>
            GetArmy(w', p, i) == GetArmy(w, p, i) && Flight(w', p, i) == Flight(w, p, i))
      && w'.land == w.land && w'.cities == w.cities
  {
  }

  /** An attack that arrives is carried out exactly if the cell is there, somebody else's, not of the alliance the
      army carries, and no longer under protection. */
  lemma StrikesExactly(w: World, a: Army, now: int)
    ensures Strikes(w, a, now) <==>
      var c := a.to.x + 200 * a.to.y;
      && c in w.land && w.land[c].owner != 0 && w.land[c].owner != a.player
      && (a.alliance == 0 || w.land[c].alliance != a.alliance)
      && now / 1_000_000 >= w.land[c].occupyTime / 1_000_000 + w.warFree
  {
  }

  /** Protection lasts as long as the configuration says, to the millisecond: nobody may attack a cell taken
      less than that many whole milliseconds ago, and time alone forbids nothing afterwards. */
  lemma ProtectionHolds(w: World, now: int, occupied: int)
    ensures now - occupied <= (w.warFree - 1) * NANOS_PER_MILLI ==> IsWarFree(w, now, occupied)
    ensures now - occupied >= w.warFree * NANOS_PER_MILLI ==> !IsWarFree(w, now, occupied)
    ensures IsWarFree(w, now, occupied) ==>
      forall c, player, alliance :: c in w.land && w.land[c].occupyTime == occupied ==>
        !Assailable(w, c, player, alliance, now)
  {
  }

  // ---------- Arrival ----------

  /** What is left of a wall of `cur` out of `max` after `destroy`: nothing below zero, nothing above the most. */
  predicate Battered(cur: int, max: int, destroy: int, left: int) {
    && (destroy >= cur ==> left == (if max < 0 && destroy == cur then max else 0))
    && (destroy < cur ==> left == if cur - destroy <= max then cur - destroy else max)
  }

  ghost predicate Attacks(w: World, m: March, now: int, a: Army) {
    && IndexInv(w) && ArmyKeys(w) && Flight(w, m.player, m.army) == None
    && GetArmy(w, m.player, m.army) == Some(a) && HasArmyState(a) && a.cmd == Strike
  }

  /** An attack arriving at a cell without a garrison: the cell loses durability by what the army destroys, and
      the army sets out from the cell to where it came from, with its troops. */
  lemma UndefendedAttack(w: World, m: March, now: int, a: Army, o: Outcome)
    requires Attacks(w, m, now, a) && Strikes(w, a, now)
    requires w.land[ToPosition(a.to)].id == ToPosition(a.to)
    requires Garrisoned(w, w.land[ToPosition(a.to)]) == None
    ensures var w', c := ArriveMarch(w, m, now, o), ToPosition(a.to);
      var home := a.(from := w.land[c].pos, to := a.from, cmd := Retreat, motion := Running,
                     start := o.clock, end := o.clock + 10_000_000_000);
      && GetArmy(w', m.player, m.army) == Some(home)
      && Flight(w', m.player, m.army) == Some(March(a.player, a.alliance, a.id, home.from, home.to, home.start, home.end))
      && c in w'.land && Battered(w.land[c].curDurable, w.land[c].maxDurable, o.destroy, w'.land[c].curDurable)
      && (forall k :: k in w.land && k != c ==> k in w'.land && w'.land[k] == w.land[k])
  {
    var c := w.land[ToPosition(a.to)];
    var home := Homeward(a, c.pos, o.clock);
    ArriveEffect(w, m, now, o);
    ReplaceEffect(Damage(w, c, o.destroy), a, home);
    OrdersKeepLand(Damage(w, c, o.destroy), home);
    OrdersKeepLand(ReplaceArmy(Damage(w, c, o.destroy), home), home);
  }

  /** An army that arrives on its way back stands idle where that march set out, and no march of it is left. */
  lemma RetreatEnds(w: World, m: March, now: int, a: Army, o: Outcome)
    requires IndexInv(w) && ArmyKeys(w) && Flight(w, m.player, m.army) == None
    requires GetArmy(w, m.player, m.army) == Some(a) && a.cmd == Retreat
    ensures var w' := ArriveMarch(w, m, now, o);
      && GetArmy(w', m.player, m.army) == Some(a.(cmd := Idle, motion := Stop, to := a.from))
      && w'.marches == w.marches && w'.cells == w.cells && w'.land == w.land
  {
  }
}
