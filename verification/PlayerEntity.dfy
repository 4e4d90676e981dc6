/** The player entity on the heap: its children are objects that others may hold and change. Each
    method does to the entity's value what module Players says; operations on the tracked collections
    follow the methods of module Alliance. */
module PlayerEntities {
  import opened Wrappers
  import opened ChangeLog
  import opened Players

  /** A child entity. Setting one of its fields is setting its state with that field replaced: an
      equal value changes nothing and leaves no mark. */
  class Child<S(==)> {
    var s: S
    var dirty: bool

    function View(): Kid<S>
      reads this
    {
      Kid(s, dirty)
    }

    constructor (v: S)
      ensures View() == Kid(v, false)
    {
      s, dirty := v, false;
    }

    method Set(v: S) returns (changed: bool)
      modifies this
      ensures View() == Touch(old(View()), v) && changed == (v != old(s))
    {
      if s == v {
        return false;
      }
      s := v;
      dirty := true;
      return true;
    }

    method ClearDirty()
      modifies this
      ensures View() == Kid(old(s), false)
    {
      dirty := false;
    }
  }

  function KidOf<S>(c: Child?<S>): Option<Kid<S>>
    reads c
  {
    if c == null then None else Some(c.View())
  }

  method ClearChild<S>(c: Child?<S>)
    modifies c
    ensures KidOf(c) == Cleared(old(KidOf(c)))
  {
    if c != null {
      c.ClearDirty();
    }
  }

  class PlayerEntity {
    var playerId: int
    var worldId: int
    var allianceId: int
    var allianceName: string
    var cityId: int
    var profile: Child?<Role>
    var resource: Child?<Resources>
    var attribute: Child?<Attribute>
    var city: Child?<City>
    var buildings: TrackedSlice<Record>
    var facility: TrackedSlice<Facility>
    var armies: TrackedMap<Record>
    var generals: TrackedMap<Record>
    var warReports: TrackedMap<Record>
    var skills: TrackedMap<Record>
    var dirty: bool
    var trace: set<Field>

    function View(): Model
      reads this, profile, resource, attribute, city
    {
      Model(playerId, worldId, allianceId, allianceName, cityId,
        KidOf(profile), KidOf(resource), KidOf(attribute), KidOf(city),
        buildings, facility, armies, generals, warReports, skills, dirty, trace)
    }

    constructor (s: State)
      ensures View() == Hydrate(s)
      ensures profile != null && resource != null && attribute != null && city != null
      ensures fresh(profile) && fresh(resource) && fresh(attribute) && fresh(city)
    {
      playerId, worldId, cityId := s.playerId, s.worldId, s.cityId;
      allianceId, allianceName := s.allianceId, s.allianceName;
      profile := new Child(s.profile);
      resource := new Child(s.resource);
      attribute := new Child(s.attribute);
      city := new Child(s.city);
      buildings, facility := ClearedSlice(s.buildings), ClearedSlice(s.facility);
      armies, generals := ClearedMap(s.armies), ClearedMap(s.generals);
      warReports, skills := ClearedMap(s.warReports), ClearedMap(s.skills);
      dirty, trace := false, {};
    }

    method IsDirty() returns (d: bool)
      ensures d == Dirty(View())
    {
      if dirty {
        return true;
      }
      if profile != null && profile.dirty {
        return true;
      }
      if resource != null && resource.dirty {
        return true;
      }
      if attribute != null && attribute.dirty {
        return true;
      }
      return city != null && city.dirty;
    }

    method ListDirtyFields() returns (fields: set<Field>)
      ensures fields == DirtyFields(View())
    {
      fields := trace;
      if profile != null && profile.dirty {
        fields := fields + {FProfile};
      }
      if resource != null && resource.dirty {
        fields := fields + {FResource};
      }
      if attribute != null && attribute.dirty {
        fields := fields + {FAttribute};
      }
      if city != null && city.dirty {
        fields := fields + {FCity};
      }
    }

    method ClearChildren()
      modifies profile, resource, attribute, city
      ensures KidOf(profile) == Cleared(old(KidOf(profile))) && KidOf(resource) == Cleared(old(KidOf(resource)))
      ensures KidOf(attribute) == Cleared(old(KidOf(attribute))) && KidOf(city) == Cleared(old(KidOf(city)))
    {
      ClearChild(profile);
      ClearChild(resource);
      ClearChild(attribute);
      ClearChild(city);
    }

    method ClearAll()
      modifies this`dirty, this`trace, this`buildings, this`facility, this`armies, this`generals, this`warReports,
        this`skills, profile, resource, attribute, city
      ensures View() == ClearDirty(old(View()))
    {
      ClearTrace();
      ClearChildren();
    }

    /** The owner's own marks and logs. */
    method ClearTrace()
      modifies this`dirty, this`trace, this`buildings, this`facility, this`armies, this`generals, this`warReports,
        this`skills
      ensures buildings == ClearedSlice(old(buildings.cur)) && facility == ClearedSlice(old(facility.cur))
      ensures armies == ClearedMap(old(armies.cur)) && generals == ClearedMap(old(generals.cur))
      ensures warReports == ClearedMap(old(warReports.cur)) && skills == ClearedMap(old(skills.cur))
      ensures !dirty && trace == {}
    {
      dirty, trace := false, {};
      buildings, facility := ClearedSlice(buildings.cur), ClearedSlice(facility.cur);
      armies, generals := ClearedMap(armies.cur), ClearedMap(generals.cur);
      warReports, skills := ClearedMap(warReports.cur), ClearedMap(skills.cur);
    }

    method MarkField(f: Field)
      modifies this`dirty, this`trace
      ensures View() == Mark(old(View()), f)
    {
      dirty, trace := true, trace + {f};
    }

    method ChangeAllianceId(v: int) returns (changed: bool)
      modifies this`allianceId, this`dirty, this`trace
      ensures View() == Apply(old(View()), SetAllianceId(v)) && changed == (v != old(allianceId))
    {
      if allianceId == v {
        return false;
      }
      allianceId := v;
      MarkField(AllianceId);
      return true;
    }

    /** A child built from a state is never the child already there, so this always marks. */
    method SetResource(v: Resources) returns (changed: bool)
      modifies this`resource, this`dirty, this`trace
      ensures View() == Apply(old(View()), OnResource(SetState(v))) && changed
      ensures resource != null && fresh(resource)
    {
      resource := new Child(v);
      MarkField(FResource);
      return true;
    }

    /** Pointers are compared, not states. */
    method SetResourceEntity(c: Child?<Resources>) returns (changed: bool)
      modifies this`resource, this`dirty, this`trace
      ensures View() == Apply(old(View()), OnResource(SetPointer(KidOf(c), c == old(resource))))
      ensures resource == c && changed == (c != old(resource))
    {
      if resource == c {
        return false;
      }
      resource := c;
      MarkField(FResource);
      return true;
    }

    /** `fn` is what the callback does to the child, through its setters. */
    method UpdateResource(fn: Resources -> Resources)
      modifies this`resource, this`dirty, this`trace, resource
      ensures View() == Apply(old(View()), OnResource(UpdateKid(fn(KidState(old(View()).resource, NO_RESOURCES)))))
    {
      if resource == null {
        resource := new Child(NO_RESOURCES);
      }
      var _ := resource.Set(fn(resource.s));
      MarkField(FResource);
    }

    /** A setter of the child, reached through the getter: the owner is not told, and its value changes. */
    method ChangeResource(v: Resources) returns (changed: bool)
      requires resource != null
      modifies resource
      ensures View() == Apply(old(View()), OnResource(ChangeKid(v))) && changed == (v != old(resource.s))
    {
      changed := resource.Set(v);
    }

    /** `fn` is the callback, as a function on the saved form of the facility. */
    method UpdateFacilityAt(i: int, fn: Facility -> Facility) returns (changed: bool)
      modifies this`facility, this`dirty, this`trace
      ensures 0 <= i < |Items(old(facility).cur)| ==>
        View() == Apply(old(View()), OnFacility(UpdateAt(i, fn(Items(old(facility).cur)[i]))))
        && changed == (fn(Items(old(facility).cur)[i]) != Items(old(facility).cur)[i])
      ensures !(0 <= i < |Items(old(facility).cur)|) ==> View() == old(View()) && !changed
    {
      if facility.cur.None? || i < 0 || i >= |facility.cur.value| {
        return false;
      }
      var before := facility.cur.value[i];
      var after := fn(before);
      if before == after {
        return false;
      }
      facility := TrackedSlice(Some(facility.cur.value[i := after]), MarkSliceSet(facility.ch, i, after));
      MarkField(FFacility);
      return true;
    }
  }

  predicate Unshared<S>(a: Child?<S>, b: Child?<S>) {
    a == null || a != b
  }

  /** Why a child must not be given to two owners: clearing one of them keeps the other's report of
      every difference from `was` exactly when the other carries the mark itself or the child has nothing to
      report. */
  method ClearWithSharedChild(p: PlayerEntity, q: PlayerEntity, ghost was: State)
    requires p != q && p.resource != null && p.resource == q.resource
    requires Unshared(p.profile, q.profile) && Unshared(p.attribute, q.attribute) && Unshared(p.city, q.city)
    requires Reports(q.View(), was)
    modifies p, p.profile, p.resource, p.attribute, p.city
    ensures Save(q.View()) == old(Save(q.View()))
    ensures Reports(q.View(), was) <==> FResource in q.trace || Save(q.View()).resource == was.resource
  {
    ghost var before := q.View();
    p.ClearAll();
    ClearedKidReports(before, was);
    assert KidOf(q.profile) == before.profile && KidOf(q.attribute) == before.attribute && KidOf(q.city) == before.city;
    assert KidOf(q.resource) == p.View().resource;
    assert q.View() == before.(resource := Cleared(before.resource));
  }

  lemma ClearedKidReports(e: Model, was: State)
    requires Reports(e, was)
    ensures var e' := e.(resource := Cleared(e.resource));
      && Save(e') == Save(e)
      && (Reports(e', was) <==> FResource in e.trace || Save(e).resource == was.resource)
  {
    var e' := e.(resource := Cleared(e.resource));
    if FResource in e.trace || Save(e).resource == was.resource {
      forall f | Differs(f, Save(e'), was)
        ensures f in DirtyFields(e')
      {
        assert Differs(f, Save(e), was);
      }
    } else {
      assert Differs(FResource, Save(e'), was);
    }
  }
}
