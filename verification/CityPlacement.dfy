/** Where players' cities are founded.

    A cell is known by its number, `x + 200 * y`, for any `x` and `y`; the neighbourhood check does not
    keep to the map, and a column outside it is the far end of a neighbouring row. The random
    coordinates a request draws are a parameter; it takes the first that will do. */
module CityPlacement {
  import opened Wrappers

  const WIDTH := 200
  const HEIGHT := 200
  const REACH := 5
  const SYS_FORTRESS := 50
  const SYS_CITY := 51
  const PLAYER_CITY := 70

  /** The part of a cell that placement looks at or sets. `cellType` comes with the map, `kind` is
      that of whatever occupies the cell. */
  datatype Cell = Cell(cellType: int, kind: int, owner: int, maxDurable: int, curDurable: int)

  datatype City = City(id: int, x: int, y: int, name: string)

  datatype Realm = Realm(land: map<int, Cell>, cities: map<int, map<int, City>>)

  function ToPosition(x: int, y: int): int {
    x + HEIGHT * y
  }

  predicate IsSysBuilding(kind: int) {
    kind == SYS_FORTRESS || kind == SYS_CITY
  }

  predicate Occupied(land: map<int, Cell>, pos: int) {
    pos in land && (land[pos].owner != 0 || IsSysBuilding(land[pos].kind) || land[pos].kind == PLAYER_CITY)
  }

  predicate OffBorder(x: int, y: int) {
    1 <= x < WIDTH - 1 && 1 <= y < HEIGHT - 1
  }

  predicate Near(x: int, y: int, u: int, v: int) {
    -REACH <= x - u <= REACH && -REACH <= y - v <= REACH
  }

  /** `confs` holds the numbers of the configured cells. */
  ghost predicate CanBuild(land: map<int, Cell>, confs: set<int>, x: int, y: int) {
    && ToPosition(x, y) in confs
    && OffBorder(x, y)
    && forall i, j :: Near(x, y, i, j) ==> !Occupied(land, ToPosition(i, j))
  }

  /** The cell (u, v) of the map stops a city at (x, y) exactly when it is near, or is near across the
      left or right edge one row up or down. */
  predicate Blocks(u: int, v: int, x: int, y: int) {
    Near(x, y, u, v) || Near(x, y, u - WIDTH, v + 1) || Near(x, y, u + WIDTH, v - 1)
  }

  predicate OnMap(x: int, y: int) {
    0 <= x < WIDTH && 0 <= y < HEIGHT
  }

  lemma SeesAcrossTheEdge(x: int, y: int, u: int, v: int)
    requires OffBorder(x, y) && OnMap(u, v)
    ensures Blocks(u, v, x, y) <==> exists i, j :: Near(x, y, i, j) && ToPosition(i, j) == ToPosition(u, v)
  {
    if Blocks(u, v, x, y) {
      var (i, j) :=
        if Near(x, y, u, v) then (u, v)
        else if Near(x, y, u - WIDTH, v + 1) then (u - WIDTH, v + 1)
        else (u + WIDTH, v - 1);
      assert Near(x, y, i, j) && ToPosition(i, j) == ToPosition(u, v);
    }
  }

  /** On a map where only cells (u, v) given by `taken` are occupied, a city may be built exactly off
      the border and where none of those cells blocks it. */
  lemma CanBuildExactly(land: map<int, Cell>, confs: set<int>, x: int, y: int)
    requires OffBorder(x, y) && ToPosition(x, y) in confs
    requires forall pos :: Occupied(land, pos) ==> 0 <= pos < WIDTH * HEIGHT
    ensures CanBuild(land, confs, x, y) <==>
      forall u, v :: OnMap(u, v) && Occupied(land, ToPosition(u, v)) ==> !Blocks(u, v, x, y)
  {
    if CanBuild(land, confs, x, y) {
      forall u, v | OnMap(u, v) && Occupied(land, ToPosition(u, v))
        ensures !Blocks(u, v, x, y)
      {
        SeesAcrossTheEdge(x, y, u, v);
      }
    }
    if forall u, v :: OnMap(u, v) && Occupied(land, ToPosition(u, v)) ==> !Blocks(u, v, x, y) {
      forall i, j | Near(x, y, i, j)
        ensures !Occupied(land, ToPosition(i, j))
      {
        var pos := ToPosition(i, j);
        if Occupied(land, pos) {
          var u, v := pos % WIDTH, pos / WIDTH;
          assert OnMap(u, v) && ToPosition(u, v) == pos;
          SeesAcrossTheEdge(x, y, u, v);
          assert false;
        }
      }
    }
  }

  /** A cell occupied by a system fortress or city, by a player's city, or by anybody's building keeps cities five
      cells off, in every direction. */
  lemma BuildingsBlock(land: map<int, Cell>, confs: set<int>, x: int, y: int, u: int, v: int)
    requires u + 200 * v in land && -5 <= x - u <= 5 && -5 <= y - v <= 5
    requires land[u + 200 * v].owner != 0 || land[u + 200 * v].kind in {50, 51, 70}
    ensures !CanBuild(land, confs, x, y)
  {
    assert Near(x, y, u, v) && Occupied(land, ToPosition(u, v));
  }

  /** Nothing else does: with no building anywhere a city may stand on any configured cell off the border. */
  lemma EmptyLandIsFree(land: map<int, Cell>, confs: set<int>, x: int, y: int)
    requires forall pos :: pos in land ==> land[pos].owner == 0 && land[pos].kind !in {50, 51, 70}
    ensures CanBuild(land, confs, x, y) <==> x + 200 * y in confs && 1 <= x < 199 && 1 <= y < 199
  {
  }

  // ---------- Founding a city ----------

  function Founded(w: Realm, player: int, city: City, durable: int): Realm {
    var pos := ToPosition(city.x, city.y);
    Realm(
      if pos in w.land
      then w.land[pos := w.land[pos].(cellType := PLAYER_CITY, kind := PLAYER_CITY, owner := player,
                                      maxDurable := durable, curDurable := durable)]
      else w.land,
      w.cities[player := map[city.id := city]])
  }

  /** A request either leaves everything as it is, when the player has a city entry, or founds a
      city where one may be built. */
  ghost predicate Creates(w: Realm, confs: set<int>, player: int, durable: int, w': Realm) {
    if player in w.cities then w' == w
    else exists city: City :: Founds(w, confs, player, durable, city, w')
  }

  ghost predicate Founds(w: Realm, confs: set<int>, player: int, durable: int, city: City, w': Realm) {
    CanBuild(w.land, confs, city.x, city.y) && w' == Founded(w, player, city, durable)
  }

  /** Draw `k` is the first at whose coordinates a city may be built. */
  ghost predicate FirstFit(land: map<int, Cell>, confs: set<int>, draws: seq<(int, int)>, k: int) {
    && 0 <= k < |draws| && CanBuild(land, confs, draws[k].0, draws[k].1)
    && forall j :: 0 <= j < k ==> !CanBuild(land, confs, draws[j].0, draws[j].1)
  }

  /** The entries that are not nil maps. */
  function Entries(cities: map<int, Option<map<int, City>>>): map<int, map<int, City>> {
    map p | p in cities && cities[p].Some? :: cities[p].value
  }

  /** A player's entry may be a nil map, which counts as no city. */
  class World {
    var land: map<int, Cell>
    var cities: map<int, Option<map<int, City>>>

    function State(): Realm
      reads this
    {
      Realm(land, Entries(cities))
    }

    method CanBuildCity(confs: set<int>, x: int, y: int) returns (can: bool)
      ensures can <==> CanBuild(land, confs, x, y)
    {
      if ToPosition(x, y) !in confs {
        return false;
      }
      if x + 1 >= WIDTH || y + 1 >= HEIGHT || y - 1 < 0 || x - 1 < 0 {
        return false;
      }
      var i := x - REACH;
      while i <= x + REACH
        invariant x - REACH <= i <= x + REACH + 1
        invariant forall a, b :: Near(x, y, a, b) && a < i ==> !Occupied(land, ToPosition(a, b))
      {
        var j := y - REACH;
        while j <= y + REACH
          invariant y - REACH <= j <= y + REACH + 1
          invariant forall b :: Near(x, y, i, b) && b < j ==> !Occupied(land, ToPosition(i, b))
        {
          if Occupied(land, ToPosition(i, j)) {
            assert Near(x, y, i, j);
            return false;
          }
          j := j + 1;
        }
        i := i + 1;
      }
      return true;
    }

    /** `draws` are the coordinates drawn one after the other; when none of them will do the request is
        still looping, and `done` is false. */
    method CreateCity(confs: set<int>, player: int, id: int, name: string, durable: int, draws: seq<(int, int)>)
      returns (done: bool)
      modifies this
      ensures done ==> Creates(old(State()), confs, player, durable, State())
      ensures !done ==> State() == old(State())
      ensures player in old(State()).cities ==> State() == old(State())
      ensures done && player !in old(State()).cities ==>
        exists k :: FirstFit(old(land), confs, draws, k)
          && State() == Founded(old(State()), player, City(id, draws[k].0, draws[k].1, name), durable)
      ensures done || player !in old(State()).cities
      ensures !done ==> forall k :: 0 <= k < |draws| ==> !CanBuild(old(land), confs, draws[k].0, draws[k].1)
    {
      if player in cities && cities[player].Some? {
        return true;
      }
      for k := 0 to |draws|
        invariant State() == old(State())
        invariant forall m :: 0 <= m < k ==> !CanBuild(land, confs, draws[m].0, draws[m].1)
      {
        var x, y := draws[k].0, draws[k].1;
        var can := CanBuildCity(confs, x, y);
        if can {
          var city := City(id, x, y, name);
          cities := cities[player := Some(map[id := city])];
          var pos := ToPosition(x, y);
          if pos in land {
            land := land[pos := land[pos].(cellType := PLAYER_CITY, kind := PLAYER_CITY, owner := player,
                                           maxDurable := durable, curDurable := durable)];
          }
          assert Founds(old(State()), confs, player, durable, city, State());
          assert FirstFit(old(land), confs, draws, k);
          return true;
        }
      }
      return false;
    }
  }

  /** Where the new city stands the cell is a player's city, its owner's and whole; no other cell changes, and no
      other player's cities. */
  lemma FoundedMeans(w: Realm, player: int, city: City, durable: int)
    requires ToPosition(city.x, city.y) in w.land
    ensures var w', pos := Founded(w, player, city, durable), city.x + 200 * city.y;
      && w'.land.Keys == w.land.Keys && w'.land[pos] == Cell(70, 70, player, durable, durable)
      && (forall p :: p in w.land && p != pos ==> w'.land[p] == w.land[p])
      && w'.cities.Keys == w.cities.Keys + {player} && w'.cities[player] == map[city.id := city]
      && (forall p :: p in w.cities && p != player ==> w'.cities[p] == w.cities[p])
  {
  }

  // ---------- Runs ----------

  ghost predicate Settled(w: Realm, p: int, city: City) {
    && OffBorder(city.x, city.y)
    && ToPosition(city.x, city.y) in w.land
    && w.land[ToPosition(city.x, city.y)].owner == p
    && w.land[ToPosition(city.x, city.y)].kind == PLAYER_CITY
  }

  ghost predicate Inv(w: Realm, confs: set<int>) {
    && (forall pos :: pos in confs ==> pos in w.land)
    && (forall p :: p in w.cities ==> |w.cities[p]| == 1)
    && (forall p, id :: p in w.cities && id in w.cities[p] ==> Settled(w, p, w.cities[p][id]))
    && (forall p, q, a, b :: p in w.cities && q in w.cities && p != q && a in w.cities[p] && b in w.cities[q] ==>
          FarApart(w.cities[p][a], w.cities[q][b]))
  }

  predicate FarApart(a: City, b: City) {
    !Near(a.x, a.y, b.x, b.y)
  }

  lemma FarApartMeans(a: City, b: City)
    ensures FarApart(a, b) <==> a.x - b.x > 5 || b.x - a.x > 5 || a.y - b.y > 5 || b.y - a.y > 5
  {
  }

  lemma PositionsDiffer(x: int, y: int, u: int, v: int)
    requires OffBorder(x, y) && OffBorder(u, v) && ToPosition(x, y) == ToPosition(u, v)
    ensures x == u && y == v
  {
  }

  lemma CreateKeepsInv(w: Realm, confs: set<int>, player: int, durable: int, w': Realm)
    requires Inv(w, confs) && Creates(w, confs, player, durable, w')
    ensures Inv(w', confs)
  {
    if player !in w.cities {
      var city: City :| Founds(w, confs, player, durable, city, w');
      FoundingSettles(w, confs, player, durable, city, w');
      FoundingKeepsApart(w, confs, player, durable, city, w');
    }
  }

  lemma FoundingKeepsApart(w: Realm, confs: set<int>, player: int, durable: int, city: City, w': Realm)
    requires Inv(w, confs) && player !in w.cities && Founds(w, confs, player, durable, city, w')
    ensures forall p, q, a, b :: p in w'.cities && q in w'.cities && p != q && a in w'.cities[p] && b in w'.cities[q] ==>
      FarApart(w'.cities[p][a], w'.cities[q][b])
  {
    forall p, q, a, b | p in w'.cities && q in w'.cities && p != q && a in w'.cities[p] && b in w'.cities[q]
      ensures FarApart(w'.cities[p][a], w'.cities[q][b])
    {
      if p == player {
        OldCityFar(w, confs, player, city, durable, q, b);
      } else if q == player {
        OldCityFar(w, confs, player, city, durable, p, a);
      }
    }
  }

  lemma FoundingSettles(w: Realm, confs: set<int>, player: int, durable: int, city: City, w': Realm)
    requires Inv(w, confs) && player !in w.cities && Founds(w, confs, player, durable, city, w')
    ensures forall p, id :: p in w'.cities && id in w'.cities[p] ==> Settled(w', p, w'.cities[p][id])
  {
    forall p, id | p in w'.cities && id in w'.cities[p]
      ensures Settled(w', p, w'.cities[p][id])
    {
      if p != player {
        OldCityFar(w, confs, player, city, durable, p, id);
      }
    }
  }

  lemma OldCityFar(w: Realm, confs: set<int>, player: int, city: City, durable: int, p: int, id: int)
    requires Inv(w, confs) && CanBuild(w.land, confs, city.x, city.y)
    requires p in w.cities && id in w.cities[p]
    ensures FarApart(city, w.cities[p][id]) && FarApart(w.cities[p][id], city)
    ensures Settled(Founded(w, player, city, durable), p, w.cities[p][id])
  {
    var other := w.cities[p][id];
    assert Settled(w, p, other);
    assert Occupied(w.land, ToPosition(other.x, other.y));
    if ToPosition(city.x, city.y) == ToPosition(other.x, other.y) {
      PositionsDiffer(city.x, city.y, other.x, other.y);
      assert false;
    }
  }

  ghost predicate Run(w: Realm, confs: set<int>, durable: int, players: seq<int>, w': Realm)
    decreases |players|
  {
    if players == [] then w' == w
    else exists mid: Realm :: RunTo(w, confs, durable, players, mid, w')
  }

  ghost predicate RunTo(w: Realm, confs: set<int>, durable: int, players: seq<int>, mid: Realm, w': Realm)
    requires players != []
    decreases |players|, 0
  {
    Creates(w, confs, players[0], durable, mid) && Run(mid, confs, durable, players[1..], w')
  }

  /** In every run of requests from a world without cities, each player has at most one city, every
      city lies off the border on a cell its player owns, and any two are more than five cells apart in
      one direction or the other. */
  lemma CitiesKeepApart(w: Realm, confs: set<int>, durable: int, players: seq<int>, w': Realm)
    requires w.cities == map[] && forall pos :: pos in confs ==> pos in w.land
    requires Run(w, confs, durable, players, w')
    ensures Inv(w', confs)
  {
    RunKeepsInv(w, confs, durable, players, w');
  }

  lemma {:induction false} RunKeepsInv(w: Realm, confs: set<int>, durable: int, players: seq<int>, w': Realm)
    requires Inv(w, confs) && Run(w, confs, durable, players, w')
    ensures Inv(w', confs)
    decreases |players|
  {
    if players != [] {
      var mid: Realm :| RunTo(w, confs, durable, players, mid, w');
      CreateKeepsInv(w, confs, players[0], durable, mid);
      RunKeepsInv(mid, confs, durable, players[1..], w');
    }
  }

  // ---------- The map a world starts with ----------

  /** A configured cell: what it is, and its durability. */
  datatype MapCell = MapCell(cellType: int, durable: int)

  /** Every configured cell gets its type and durability; nothing occupies any of them. */
  function InitialMap(conf: map<int, MapCell>): map<int, Cell> {
    map pos | pos in conf :: Cell(conf[pos].cellType, 0, 0, conf[pos].durable, conf[pos].durable)
  }

  ghost predicate CityAt(w: Realm, pos: int) {
    exists p, id :: p in w.cities && id in w.cities[p] && ToPosition(w.cities[p][id].x, w.cities[p][id].y) == pos
  }

  /** The occupied cells are exactly those of players' cities. */
  ghost predicate OnlyCitiesOccupy(w: Realm) {
    forall pos :: Occupied(w.land, pos) <==> CityAt(w, pos)
  }

  lemma CreateKeepsOnlyCities(w: Realm, confs: set<int>, player: int, durable: int, w': Realm)
    requires Inv(w, confs) && OnlyCitiesOccupy(w) && Creates(w, confs, player, durable, w')
    ensures OnlyCitiesOccupy(w')
  {
    if player !in w.cities {
      var city: City :| Founds(w, confs, player, durable, city, w');
      forall pos
        ensures Occupied(w'.land, pos) <==> CityAt(w', pos)
      {
        FoundingOccupies(w, confs, player, durable, city, w', pos);
      }
    }
  }

  lemma FoundingOccupies(w: Realm, confs: set<int>, player: int, durable: int, city: City, w': Realm, pos: int)
    requires Inv(w, confs) && OnlyCitiesOccupy(w) && player !in w.cities
    requires Founds(w, confs, player, durable, city, w')
    ensures Occupied(w'.land, pos) <==> CityAt(w', pos)
  {
    if pos == ToPosition(city.x, city.y) {
      assert w'.cities[player][city.id] == city;
    } else {
      assert Occupied(w'.land, pos) <==> Occupied(w.land, pos);
      if CityAt(w, pos) {
        var p, id :| p in w.cities && id in w.cities[p] && ToPosition(w.cities[p][id].x, w.cities[p][id].y) == pos;
        assert w'.cities[p][id] == w.cities[p][id];
      }
      if CityAt(w', pos) {
        var p, id :| p in w'.cities && id in w'.cities[p] && ToPosition(w'.cities[p][id].x, w'.cities[p][id].y) == pos;
        assert p in w.cities && w.cities[p][id] == w'.cities[p][id];
      }
    }
  }

  lemma {:induction false} RunKeepsOnlyCities(w: Realm, confs: set<int>, durable: int, players: seq<int>, w': Realm)
    requires Inv(w, confs) && OnlyCitiesOccupy(w) && Run(w, confs, durable, players, w')
    ensures Inv(w', confs) && OnlyCitiesOccupy(w')
    decreases |players|
  {
    if players != [] {
      var mid: Realm :| RunTo(w, confs, durable, players, mid, w');
      CreateKeepsInv(w, confs, players[0], durable, mid);
      CreateKeepsOnlyCities(w, confs, players[0], durable, mid);
      RunKeepsOnlyCities(mid, confs, durable, players[1..], w');
    }
  }

  /** From the initial map on, whatever the configuration says of system cities and fortresses, a city may
      be built exactly on a configured cell off the border that no player's city blocks. */
  lemma OnlyPlayersCitiesMatter(conf: map<int, MapCell>, durable: int, players: seq<int>, w: Realm, x: int, y: int)
    requires Run(Realm(InitialMap(conf), map[]), conf.Keys, durable, players, w)
    ensures CanBuild(w.land, conf.Keys, x, y) <==>
      ToPosition(x, y) in conf && OffBorder(x, y) && NoCityBlocks(w, x, y)
  {
    RunKeepsOnlyCities(Realm(InitialMap(conf), map[]), conf.Keys, durable, players, w);
    if ToPosition(x, y) in conf && OffBorder(x, y) {
      forall pos | Occupied(w.land, pos)
        ensures 0 <= pos < WIDTH * HEIGHT
      {
        assert CityAt(w, pos);
      }
      CanBuildExactly(w.land, conf.Keys, x, y);
      assert CanBuild(w.land, conf.Keys, x, y) <==> NoCellBlocks(w, x, y);
      CitiesAreWhatBlocks(w, conf.Keys, x, y);
    }
  }

  ghost predicate NoCellBlocks(w: Realm, x: int, y: int) {
    forall u, v :: OnMap(u, v) && Occupied(w.land, ToPosition(u, v)) ==> !Blocks(u, v, x, y)
  }

  ghost predicate NoCityBlocks(w: Realm, x: int, y: int) {
    forall p, id :: p in w.cities && id in w.cities[p] ==> !Blocks(w.cities[p][id].x, w.cities[p][id].y, x, y)
  }

  lemma CitiesAreWhatBlocks(w: Realm, confs: set<int>, x: int, y: int)
    requires Inv(w, confs) && OnlyCitiesOccupy(w)
    ensures NoCellBlocks(w, x, y) <==> NoCityBlocks(w, x, y)
  {
    if NoCellBlocks(w, x, y) {
      forall p, id | p in w.cities && id in w.cities[p]
        ensures !Blocks(w.cities[p][id].x, w.cities[p][id].y, x, y)
      {
        assert Settled(w, p, w.cities[p][id]);
        assert Occupied(w.land, ToPosition(w.cities[p][id].x, w.cities[p][id].y));
      }
    }
    if NoCityBlocks(w, x, y) {
      forall u, v | OnMap(u, v) && Occupied(w.land, ToPosition(u, v))
        ensures !Blocks(u, v, x, y)
      {
        CityOf(w, confs, u, v);
      }
    }
  }

  lemma CityOf(w: Realm, confs: set<int>, u: int, v: int)
    requires Inv(w, confs) && OnlyCitiesOccupy(w) && OnMap(u, v) && Occupied(w.land, ToPosition(u, v))
    ensures exists p, id :: p in w.cities && id in w.cities[p] && w.cities[p][id].x == u && w.cities[p][id].y == v
  {
    assert CityAt(w, ToPosition(u, v));
    var p, id :| p in w.cities && id in w.cities[p]
      && ToPosition(w.cities[p][id].x, w.cities[p][id].y) == ToPosition(u, v);
    assert Settled(w, p, w.cities[p][id]);
    SamePlace(w.cities[p][id].x, w.cities[p][id].y, u, v);
  }

  lemma SamePlace(x: int, y: int, u: int, v: int)
    requires OnMap(x, y) && OnMap(u, v) && ToPosition(x, y) == ToPosition(u, v)
    ensures x == u && y == v
  {
  }

  /** So the first player's city may stand on the cell of a system city itself. */
  lemma SystemCityCanBeBuiltOver(conf: map<int, MapCell>, player: int, durable: int, city: City)
    requires OffBorder(city.x, city.y) && ToPosition(city.x, city.y) in conf
    requires conf[ToPosition(city.x, city.y)].cellType == SYS_CITY
    ensures var w := Realm(InitialMap(conf), map[]);
      && w.land[ToPosition(city.x, city.y)].cellType == SYS_CITY
      && Creates(w, conf.Keys, player, durable, Founded(w, player, city, durable))
      && Founded(w, player, city, durable).land[ToPosition(city.x, city.y)].cellType == PLAYER_CITY
  {
    var w := Realm(InitialMap(conf), map[]);
    OnlyPlayersCitiesMatter(conf, durable, [], w, city.x, city.y);
    assert Founds(w, conf.Keys, player, durable, city, Founded(w, player, city, durable));
  }
}
