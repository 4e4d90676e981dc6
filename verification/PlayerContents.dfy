/** What the operations on a player leave in its saved form, and that nothing else is ever reported. */
module PlayerContents {
  import opened Wrappers
  import opened ChangeLog
  import opened CollectionContents
  import opened Players

  /** The state of a child after an operation: the argument, unless the operation finds nothing to change. */
  function KidSaved<S>(k: Option<Kid<S>>, op: KidOp<S>, zero: S): S {
    match op
    case SetState(v) => v
    case SetPointer(kid, same) => KidState(if same then k else kid, zero)
    case UpdateKid(next) => next
    case ChangeKid(v) => if k.Some? then v else zero
  }

  function Saved(e: Model, op: Op): State {
    var s := Save(e);
    match op
    case SetPlayerId(v) => s.(playerId := v)
    case SetWorldId(v) => s.(worldId := v)
    case SetAllianceId(v) => s.(allianceId := v)
    case SetAllianceName(v) => s.(allianceName := v)
    case SetCityId(v) => s.(cityId := v)
    case OnProfile(p) => s.(profile := KidSaved(e.profile, p, NO_ROLE))
    case OnResource(r) => s.(resource := KidSaved(e.resource, r, NO_RESOURCES))
    case OnAttribute(a) => s.(attribute := KidSaved(e.attribute, a, NO_ATTRIBUTE))
    case OnCity(c) => s.(city := KidSaved(e.city, c, NO_CITY))
    case OnBuildings(l) => s.(buildings := Kept(s.buildings, l))
    case OnFacility(l) => s.(facility := Kept(s.facility, l))
    case OnArmies(m) => s.(armies := Stored(s.armies, m))
    case OnGenerals(m) => s.(generals := Stored(s.generals, m))
    case OnWarReports(m) => s.(warReports := Stored(s.warReports, m))
    case OnSkills(m) => s.(skills := Stored(s.skills, m))
  }

  lemma KidMeans<S>(k: Option<Kid<S>>, op: KidOp<S>, zero: S)
    ensures KidState(ApplyKid(k, op, zero).0, zero) == KidSaved(k, op, zero)
  {
  }

  lemma KidSavedMeans(e: Model, op: Op)
    requires OnKid(op)
    ensures Save(Apply(e, op)) == Saved(e, op)
  {
    match op
    case OnProfile(p) => KidMeans(e.profile, p, NO_ROLE);
    case OnResource(r) => KidMeans(e.resource, r, NO_RESOURCES);
    case OnAttribute(a) => KidMeans(e.attribute, a, NO_ATTRIBUTE);
    case OnCity(c) => KidMeans(e.city, c, NO_CITY);
  }

  lemma SliceMeans(e: Model, op: Op)
    requires op.OnBuildings? || op.OnFacility?
    ensures Save(Apply(e, op)) == Saved(e, op)
  {
    match op
    case OnBuildings(l) => SliceItems(e.buildings, l);
    case OnFacility(l) => SliceItems(e.facility, l);
  }

  lemma MapMeans(e: Model, op: Op)
    requires op.OnArmies? || op.OnGenerals? || op.OnWarReports? || op.OnSkills?
    ensures Save(Apply(e, op)) == Saved(e, op)
  {
    match op
    case OnArmies(m) => MapContents(e.armies, m);
    case OnGenerals(m) => MapContents(e.generals, m);
    case OnWarReports(m) => MapContents(e.warReports, m);
    case OnSkills(m) => MapContents(e.skills, m);
  }

  /** Every operation leaves its argument in its field, a collection as a plain one after the same operation,
      and everything else as it was. */
  lemma ApplyMeans(e: Model, op: Op)
    ensures Save(Apply(e, op)) == Saved(e, op)
  {
    if OnKid(op) {
      KidSavedMeans(e, op);
    } else if op.OnBuildings? || op.OnFacility? {
      SliceMeans(e, op);
    } else if OnCollection(op) {
      MapMeans(e, op);
    }
  }

  /** A child is dirty after an operation exactly if it was and is still the same one, or the operation gave it
      another state, or it is a dirty one put in its place. */
  lemma KidDirtyExactly<S>(k: Option<Kid<S>>, op: KidOp<S>, zero: S)
    ensures DirtyKid(ApplyKid(k, op, zero).0) <==>
      match op
      case SetState(_) => false
      case SetPointer(kid, same) => DirtyKid(if same then k else kid)
      case UpdateKid(next) => DirtyKid(k) || next != KidState(k, zero)
      case ChangeKid(v) => DirtyKid(k) || (k.Some? && v != KidState(k, zero))
  {
  }

  lemma OnlyItsFieldReported(e: Model, op: Op, f: Field)
    requires f != FieldOf(op) && f in DirtyFields(Apply(e, op))
    ensures f in DirtyFields(e)
  {
    TraceGrows(e, op);
    OtherKidsStay(e, op);
  }

  predicate Touched(ops: seq<Op>, f: Field) {
    exists i :: 0 <= i < |ops| && FieldOf(ops[i]) == f
  }

  /** Over any run nothing is reported but what was before and the fields of operations that occurred. */
  lemma {:induction false} OnlyTouchedReported(e: Model, ops: seq<Op>, f: Field)
    requires f in DirtyFields(ApplyAll(e, ops))
    ensures f in DirtyFields(e) || Touched(ops, f)
    decreases |ops|
  {
    if ops != [] {
      OnlyTouchedReported(Apply(e, ops[0]), ops[1..], f);
      if f in DirtyFields(Apply(e, ops[0])) {
        if f == FieldOf(ops[0]) {
          assert Touched(ops, f);
        } else {
          OnlyItsFieldReported(e, ops[0], f);
        }
      } else {
        var i :| 0 <= i < |ops[1..]| && FieldOf(ops[1..][i]) == f;
        assert FieldOf(ops[i + 1]) == f;
      }
    }
  }

  /** A scalar setter given the value that is there reports nothing. */
  lemma SameValueMarksNothing(e: Model, op: Op)
    requires !OnKid(op) && !OnCollection(op) && Saved(e, op) == Save(e)
    ensures Apply(e, op) == e
  {
  }
}
