/** The player entity as a value: scalar fields, four children each with its own dirty mark, two tracked
    slices and four tracked maps. The owner's Dirty asks the children, which change through pointers
    handed out by its getters. Module PlayerEntities has the entity on the heap. */
module Players {
  import opened Wrappers
  import opened ChangeLog

  datatype Role = Role(
    headId: int, sex: int, nickName: string, balance: int, login: int, logout: int, profile: string, created: int)
  datatype Resources = Resources(wood: int, iron: int, stone: int, grain: int, gold: int, decree: int, lastClaim: int)
  datatype Attribute = Attribute(parentId: int, collectTimes: int, lastCollect: int, posTags: seq<(int, int, string)>)
  datatype City = City(name: string, level: int, x: int, y: int)
  datatype Facility = Facility(id: int, name: string, level: int, fType: int, upTime: int)

  /** A building, army, general, war report or skill; what is in it does not matter here. */
  datatype Record = Record(id: int, content: seq<int>)

  const NO_ROLE := Role(0, 0, "", 0, 0, 0, "", 0)
  const NO_RESOURCES := Resources(0, 0, 0, 0, 0, 0, 0)
  const NO_ATTRIBUTE := Attribute(0, 0, 0, [])
  const NO_CITY := City("", 0, 0, 0)

  datatype State = State(
    playerId: int, worldId: int, allianceId: int, allianceName: string, cityId: int,
    profile: Role, resource: Resources, attribute: Attribute, city: City,
    buildings: Option<seq<Record>>, facility: Option<seq<Facility>>,
    armies: Option<map<int, Record>>, generals: Option<map<int, Record>>,
    warReports: Option<map<int, Record>>, skills: Option<map<int, Record>>)

  datatype Field =
    | PlayerId | WorldId | AllianceId | AllianceName | CityId
    | FProfile | FResource | FAttribute | FCity
    | FBuildings | FFacility | FArmies | FGenerals | FWarReports | FSkills

  /** A child entity: its state and its own dirty mark. */
  datatype Kid<S> = Kid(s: S, dirty: bool)

  datatype Model = Model(
    playerId: int, worldId: int, allianceId: int, allianceName: string, cityId: int,
    profile: Option<Kid<Role>>, resource: Option<Kid<Resources>>,
    attribute: Option<Kid<Attribute>>, city: Option<Kid<City>>,
    buildings: TrackedSlice<Record>, facility: TrackedSlice<Facility>,
    armies: TrackedMap<Record>, generals: TrackedMap<Record>,
    warReports: TrackedMap<Record>, skills: TrackedMap<Record>,
    dirty: bool, trace: set<Field>)

  // ---------- Operations ----------

  datatype KidOp<S> =
    | SetState(v: S)                              // SetX: a new child is built from the state
    | SetPointer(kid: Option<Kid<S>>, same: bool) // SetXEntity: `same` says that it is the child already there
    | UpdateKid(next: S)                          // UpdateX: next is what the callback leaves in the child
    | ChangeKid(v: S)                             // a setter of the child itself, through the getter's pointer

  datatype Op =
    | SetPlayerId(v: int) | SetWorldId(v: int) | SetAllianceId(v: int) | SetAllianceName(name: string)
    | SetCityId(v: int)
    | OnProfile(p: KidOp<Role>) | OnResource(r: KidOp<Resources>)
    | OnAttribute(a: KidOp<Attribute>) | OnCity(c: KidOp<City>)
    | OnBuildings(bs: SliceOp<Record>) | OnFacility(fs: SliceOp<Facility>)
    | OnArmies(m: MapOp<Record>) | OnGenerals(m: MapOp<Record>)
    | OnWarReports(m: MapOp<Record>) | OnSkills(m: MapOp<Record>)

  function Mark(e: Model, f: Field): Model {
    e.(dirty := true, trace := e.trace + {f})
  }

  function Touch<S(==)>(k: Kid<S>, v: S): Kid<S> {
    Kid(v, k.dirty || v != k.s)
  }

  /** The child after an operation, and whether the owner marks the field. */
  function ApplyKid<S(==)>(k: Option<Kid<S>>, op: KidOp<S>, zero: S): (Option<Kid<S>>, bool) {
    match op
    case SetState(v) => (Some(Kid(v, false)), true)
    case SetPointer(kid, same) => if same then (k, false) else (kid, true)
    case UpdateKid(next) => (Some(Touch(if k.Some? then k.value else Kid(zero, false), next)), true)
    case ChangeKid(v) => if k.Some? then (Some(Touch(k.value, v)), false) else (k, false)
  }

  function MarkIf(e: Model, marks: bool, f: Field): Model {
    if marks then Mark(e, f) else e
  }

  function Apply(e: Model, op: Op): Model {
    match op
    case SetPlayerId(v) => MarkIf(e.(playerId := v), v != e.playerId, PlayerId)
    case SetWorldId(v) => MarkIf(e.(worldId := v), v != e.worldId, WorldId)
    case SetAllianceId(v) => MarkIf(e.(allianceId := v), v != e.allianceId, AllianceId)
    case SetAllianceName(v) => MarkIf(e.(allianceName := v), v != e.allianceName, AllianceName)
    case SetCityId(v) => MarkIf(e.(cityId := v), v != e.cityId, CityId)
    case OnProfile(p) =>
      var (k, marks) := ApplyKid(e.profile, p, NO_ROLE); MarkIf(e.(profile := k), marks, FProfile)
    case OnResource(r) =>
      var (k, marks) := ApplyKid(e.resource, r, NO_RESOURCES); MarkIf(e.(resource := k), marks, FResource)
    case OnAttribute(a) =>
      var (k, marks) := ApplyKid(e.attribute, a, NO_ATTRIBUTE); MarkIf(e.(attribute := k), marks, FAttribute)
    case OnCity(c) =>
      var (k, marks) := ApplyKid(e.city, c, NO_CITY); MarkIf(e.(city := k), marks, FCity)
    case OnBuildings(s) =>
      var (t, marks) := ApplySlice(e.buildings, s); MarkIf(e.(buildings := t), marks, FBuildings)
    case OnFacility(s) =>
      var (t, marks) := ApplySlice(e.facility, s); MarkIf(e.(facility := t), marks, FFacility)
    case OnArmies(m) =>
      var (t, marks) := ApplyMap(e.armies, m); MarkIf(e.(armies := t), marks, FArmies)
    case OnGenerals(m) =>
      var (t, marks) := ApplyMap(e.generals, m); MarkIf(e.(generals := t), marks, FGenerals)
    case OnWarReports(m) =>
      var (t, marks) := ApplyMap(e.warReports, m); MarkIf(e.(warReports := t), marks, FWarReports)
    case OnSkills(m) =>
      var (t, marks) := ApplyMap(e.skills, m); MarkIf(e.(skills := t), marks, FSkills)
  }

  // ---------- Save, Hydrate, Dirty, ClearDirty ----------

  function KidState<S>(k: Option<Kid<S>>, zero: S): S {
    if k.Some? then k.value.s else zero
  }

  function Save(e: Model): State {
    State(e.playerId, e.worldId, e.allianceId, e.allianceName, e.cityId,
      KidState(e.profile, NO_ROLE), KidState(e.resource, NO_RESOURCES),
      KidState(e.attribute, NO_ATTRIBUTE), KidState(e.city, NO_CITY),
      e.buildings.cur, e.facility.cur, e.armies.cur, e.generals.cur, e.warReports.cur, e.skills.cur)
  }

  function Hydrate(s: State): Model {
    Model(s.playerId, s.worldId, s.allianceId, s.allianceName, s.cityId,
      Some(Kid(s.profile, false)), Some(Kid(s.resource, false)), Some(Kid(s.attribute, false)), Some(Kid(s.city, false)),
      ClearedSlice(s.buildings), ClearedSlice(s.facility), ClearedMap(s.armies), ClearedMap(s.generals),
      ClearedMap(s.warReports), ClearedMap(s.skills), false, {})
  }

  predicate DirtyKid<S>(k: Option<Kid<S>>) {
    k.Some? && k.value.dirty
  }

  predicate Dirty(e: Model) {
    e.dirty || DirtyKid(e.profile) || DirtyKid(e.resource) || DirtyKid(e.attribute) || DirtyKid(e.city)
  }

  function DirtyFields(e: Model): set<Field> {
    e.trace
    + (if DirtyKid(e.profile) then {FProfile} else {})
    + (if DirtyKid(e.resource) then {FResource} else {})
    + (if DirtyKid(e.attribute) then {FAttribute} else {})
    + (if DirtyKid(e.city) then {FCity} else {})
  }

  function Cleared<S>(k: Option<Kid<S>>): Option<Kid<S>> {
    if k.Some? then Some(Kid(k.value.s, false)) else None
  }

  function ClearDirty(e: Model): Model {
    e.(profile := Cleared(e.profile), resource := Cleared(e.resource),
       attribute := Cleared(e.attribute), city := Cleared(e.city),
       buildings := ClearedSlice(e.buildings.cur), facility := ClearedSlice(e.facility.cur),
       armies := ClearedMap(e.armies.cur), generals := ClearedMap(e.generals.cur),
       warReports := ClearedMap(e.warReports.cur), skills := ClearedMap(e.skills.cur),
       dirty := false, trace := {})
  }

  lemma HydrateSave(s: State)
    ensures Save(Hydrate(s)) == s && !Dirty(Hydrate(s))
  {
  }

  lemma ClearDirtyKeepsState(e: Model)
    ensures Save(ClearDirty(e)) == Save(e) && !Dirty(ClearDirty(e)) && DirtyFields(ClearDirty(e)) == {}
  {
  }

  // ---------- Every change is reported ----------

  predicate Differs(f: Field, a: State, b: State) {
    match f
    case PlayerId => a.playerId != b.playerId
    case WorldId => a.worldId != b.worldId
    case AllianceId => a.allianceId != b.allianceId
    case AllianceName => a.allianceName != b.allianceName
    case CityId => a.cityId != b.cityId
    case FProfile => a.profile != b.profile
    case FResource => a.resource != b.resource
    case FAttribute => a.attribute != b.attribute
    case FCity => a.city != b.city
    case FBuildings => a.buildings != b.buildings
    case FFacility => a.facility != b.facility
    case FArmies => a.armies != b.armies
    case FGenerals => a.generals != b.generals
    case FWarReports => a.warReports != b.warReports
    case FSkills => a.skills != b.skills
  }

  lemma EqualUnlessDiffers(a: State, b: State)
    ensures a == b <==> forall f :: !Differs(f, a, b)
  {
    if forall f :: !Differs(f, a, b) {
      assert !Differs(PlayerId, a, b) && !Differs(WorldId, a, b) && !Differs(AllianceId, a, b);
      assert !Differs(AllianceName, a, b) && !Differs(CityId, a, b) && !Differs(FProfile, a, b);
      assert !Differs(FResource, a, b) && !Differs(FAttribute, a, b) && !Differs(FCity, a, b);
      assert !Differs(FBuildings, a, b) && !Differs(FFacility, a, b) && !Differs(FArmies, a, b);
      assert !Differs(FGenerals, a, b) && !Differs(FWarReports, a, b) && !Differs(FSkills, a, b);
    }
  }

  /** Every field in which the entity differs from `was` is reported. */
  ghost predicate Reports(e: Model, was: State) {
    && (e.dirty <==> e.trace != {})
    && forall f :: Differs(f, Save(e), was) ==> f in DirtyFields(e)
  }

  lemma UnmarkedMapSame<V>(t: TrackedMap<V>, op: MapOp<V>)
    ensures !ApplyMap(t, op).1 ==> ApplyMap(t, op).0 == t
  {
    if op.DelMany? {
      DelAllOnlyPresent(t, op.keys);
    }
  }

  lemma UnmarkedSliceSame<V>(t: TrackedSlice<V>, op: SliceOp<V>)
    ensures !ApplySlice(t, op).1 ==> ApplySlice(t, op).0 == t
  {
  }

  function FieldOf(op: Op): Field {
    match op
    case SetPlayerId(_) => PlayerId
    case SetWorldId(_) => WorldId
    case SetAllianceId(_) => AllianceId
    case SetAllianceName(_) => AllianceName
    case SetCityId(_) => CityId
    case OnProfile(_) => FProfile
    case OnResource(_) => FResource
    case OnAttribute(_) => FAttribute
    case OnCity(_) => FCity
    case OnBuildings(_) => FBuildings
    case OnFacility(_) => FFacility
    case OnArmies(_) => FArmies
    case OnGenerals(_) => FGenerals
    case OnWarReports(_) => FWarReports
    case OnSkills(_) => FSkills
  }

  ghost predicate OtherScalarsSame(e: Model, e': Model, op: Op) {
    && (!op.SetPlayerId? ==> e'.playerId == e.playerId)
    && (!op.SetWorldId? ==> e'.worldId == e.worldId)
    && (!op.SetAllianceId? ==> e'.allianceId == e.allianceId)
    && (!op.SetAllianceName? ==> e'.allianceName == e.allianceName)
    && (!op.SetCityId? ==> e'.cityId == e.cityId)
  }

  ghost predicate OtherKidsSame(e: Model, e': Model, op: Op) {
    && (!op.OnProfile? ==> e'.profile == e.profile)
    && (!op.OnResource? ==> e'.resource == e.resource)
    && (!op.OnAttribute? ==> e'.attribute == e.attribute)
    && (!op.OnCity? ==> e'.city == e.city)
  }

  ghost predicate OtherCollectionsSame(e: Model, e': Model, op: Op) {
    && (!op.OnBuildings? ==> e'.buildings == e.buildings)
    && (!op.OnFacility? ==> e'.facility == e.facility)
    && (!op.OnArmies? ==> e'.armies == e.armies)
    && (!op.OnGenerals? ==> e'.generals == e.generals)
    && (!op.OnWarReports? ==> e'.warReports == e.warReports)
    && (!op.OnSkills? ==> e'.skills == e.skills)
  }

  lemma OtherScalarsStay(e: Model, op: Op)
    ensures OtherScalarsSame(e, Apply(e, op), op)
  {
  }

  lemma OtherKidsStay(e: Model, op: Op)
    ensures OtherKidsSame(e, Apply(e, op), op)
  {
  }

  lemma OtherCollectionsStay(e: Model, op: Op)
    ensures OtherCollectionsSame(e, Apply(e, op), op)
  {
  }

  lemma NoOtherDiffers(e: Model, e': Model, op: Op, f: Field)
    requires OtherScalarsSame(e, e', op) && OtherKidsSame(e, e', op) && OtherCollectionsSame(e, e', op)
    requires f != FieldOf(op)
    ensures !Differs(f, Save(e'), Save(e))
  {
  }

  lemma OnlyItsField(e: Model, op: Op, f: Field)
    requires f != FieldOf(op)
    ensures !Differs(f, Save(Apply(e, op)), Save(e))
  {
    OtherScalarsStay(e, op);
    OtherKidsStay(e, op);
    OtherCollectionsStay(e, op);
    NoOtherDiffers(e, Apply(e, op), op, f);
  }

  lemma TraceGrows(e: Model, op: Op)
    ensures Apply(e, op).trace == e.trace || Apply(e, op).trace == e.trace + {FieldOf(op)}
    ensures e.dirty ==> Apply(e, op).dirty
    ensures (e.dirty <==> e.trace != {}) ==> (Apply(e, op).dirty <==> Apply(e, op).trace != {})
  {
  }

  /** A child that changes unmarked by its owner is dirty itself, and one that was dirty still is. */
  lemma KidReports<S>(k: Option<Kid<S>>, op: KidOp<S>, zero: S)
    ensures var (k', marks) := ApplyKid(k, op, zero);
      && (DirtyKid(k) ==> marks || DirtyKid(k'))
      && (KidState(k', zero) != KidState(k, zero) ==> marks || DirtyKid(k'))
  {
  }

  predicate OnKid(op: Op) {
    op.OnProfile? || op.OnResource? || op.OnAttribute? || op.OnCity?
  }

  predicate OnCollection(op: Op) {
    op.OnBuildings? || op.OnFacility? || op.OnArmies? || op.OnGenerals? || op.OnWarReports? || op.OnSkills?
  }

  lemma ItsKidReported(e: Model, op: Op)
    requires OnKid(op)
    ensures FieldOf(op) in DirtyFields(e) || Differs(FieldOf(op), Save(Apply(e, op)), Save(e)) ==>
      FieldOf(op) in DirtyFields(Apply(e, op))
  {
    match op
    case OnProfile(p) => KidReports(e.profile, p, NO_ROLE);
    case OnResource(r) => KidReports(e.resource, r, NO_RESOURCES);
    case OnAttribute(a) => KidReports(e.attribute, a, NO_ATTRIBUTE);
    case OnCity(c) => KidReports(e.city, c, NO_CITY);
  }

  lemma ItsSliceMarked(e: Model, op: Op)
    requires op.OnBuildings? || op.OnFacility?
    ensures Differs(FieldOf(op), Save(Apply(e, op)), Save(e)) ==> FieldOf(op) in Apply(e, op).trace
  {
    match op
    case OnBuildings(s) => UnmarkedSliceSame(e.buildings, s);
    case OnFacility(s) => UnmarkedSliceSame(e.facility, s);
  }

  lemma ItsMapMarked(e: Model, op: Op)
    requires op.OnArmies? || op.OnGenerals? || op.OnWarReports? || op.OnSkills?
    ensures Differs(FieldOf(op), Save(Apply(e, op)), Save(e)) ==> FieldOf(op) in Apply(e, op).trace
  {
    match op
    case OnArmies(m) => UnmarkedMapSame(e.armies, m);
    case OnGenerals(m) => UnmarkedMapSame(e.generals, m);
    case OnWarReports(m) => UnmarkedMapSame(e.warReports, m);
    case OnSkills(m) => UnmarkedMapSame(e.skills, m);
  }

  lemma ItsScalarMarked(e: Model, op: Op)
    requires !OnKid(op) && !OnCollection(op)
    ensures Differs(FieldOf(op), Save(Apply(e, op)), Save(e)) ==> FieldOf(op) in Apply(e, op).trace
  {
  }

  lemma ItsFieldReported(e: Model, op: Op)
    ensures FieldOf(op) in DirtyFields(e) || Differs(FieldOf(op), Save(Apply(e, op)), Save(e)) ==>
      FieldOf(op) in DirtyFields(Apply(e, op))
  {
    if OnKid(op) {
      ItsKidReported(e, op);
    } else {
      TraceGrows(e, op);
      if op.OnBuildings? || op.OnFacility? {
        ItsSliceMarked(e, op);
      } else if OnCollection(op) {
        ItsMapMarked(e, op);
      } else {
        ItsScalarMarked(e, op);
      }
    }
  }

  /** No operation takes a report back or changes a field it does not report. */
  lemma OpReports(e: Model, op: Op, f: Field)
    ensures f in DirtyFields(e) || Differs(f, Save(Apply(e, op)), Save(e)) ==> f in DirtyFields(Apply(e, op))
  {
    if f == FieldOf(op) {
      ItsFieldReported(e, op);
    } else {
      OnlyItsField(e, op, f);
      TraceGrows(e, op);
      OtherKidsStay(e, op);
    }
  }

  lemma DirtyIsReported(e: Model)
    requires e.dirty <==> e.trace != {}
    ensures Dirty(e) <==> DirtyFields(e) != {}
  {
    var fields := DirtyFields(e);
    assert e.trace <= fields;
    assert DirtyKid(e.profile) ==> FProfile in fields;
    assert DirtyKid(e.resource) ==> FResource in fields;
    assert DirtyKid(e.attribute) ==> FAttribute in fields;
    assert DirtyKid(e.city) ==> FCity in fields;
  }

  lemma OpKeepsReports(e: Model, op: Op, was: State)
    requires Reports(e, was)
    ensures Reports(Apply(e, op), was)
  {
    TraceGrows(e, op);
    forall f | Differs(f, Save(Apply(e, op)), was)
      ensures f in DirtyFields(Apply(e, op))
    {
      OpReports(e, op, f);
      DiffersThrough(f, Save(Apply(e, op)), Save(e), was);
    }
  }

  lemma DiffersThrough(f: Field, a: State, b: State, c: State)
    ensures Differs(f, a, c) ==> Differs(f, a, b) || Differs(f, b, c)
  {
  }

  function ApplyAll(e: Model, ops: seq<Op>): Model
    decreases |ops|
  {
    if ops == [] then e else ApplyAll(Apply(e, ops[0]), ops[1..])
  }

  lemma {:induction false} RunKeepsReports(e: Model, ops: seq<Op>, was: State)
    requires Reports(e, was)
    ensures Reports(ApplyAll(e, ops), was)
    decreases |ops|
  {
    if ops != [] {
      OpKeepsReports(e, ops[0], was);
      RunKeepsReports(Apply(e, ops[0]), ops[1..], was);
    }
  }

  /** After ClearDirty and any operations, those on handed-out children included, every field that
      differs from the cleared state is reported, Dirty says whether anything is, and a clean entity saves
      to the cleared state. */
  lemma DirtyIsComplete(e: Model, ops: seq<Op>)
    ensures var e' := ApplyAll(ClearDirty(e), ops);
      && (forall f :: Differs(f, Save(e'), Save(e)) ==> f in DirtyFields(e'))
      && (Dirty(e') <==> DirtyFields(e') != {})
      && (!Dirty(e') ==> Save(e') == Save(e))
  {
    ClearDirtyKeepsState(e);
    RunKeepsReports(ClearDirty(e), ops, Save(e));
    var e' := ApplyAll(ClearDirty(e), ops);
    DirtyIsReported(e');
    EqualUnlessDiffers(Save(e'), Save(e));
  }

  /** One operation: what changes Save leaves the entity dirty, and dirt stays. */
  lemma ChangeIsDirty(e: Model, op: Op)
    requires e.dirty <==> e.trace != {}
    ensures Save(Apply(e, op)) != Save(e) || Dirty(e) ==> Dirty(Apply(e, op))
    ensures Apply(e, op).dirty <==> Apply(e, op).trace != {}
  {
    TraceGrows(e, op);
    DirtyIsReported(e);
    DirtyIsReported(Apply(e, op));
    EqualUnlessDiffers(Save(Apply(e, op)), Save(e));
    if Save(Apply(e, op)) != Save(e) {
      var f :| Differs(f, Save(Apply(e, op)), Save(e));
      OpReports(e, op, f);
    } else if Dirty(e) {
      var f :| f in DirtyFields(e);
      OpReports(e, op, f);
    }
  }
}
