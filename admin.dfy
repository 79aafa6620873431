/**
 * The organisation tables the admin routes maintain: technicians, ticket
 * categories and areas, each a map from primary key to row, held by one
 * object whose methods update them as the routes do and keep them only when
 * the route commits.
 *
 * Form values arrive as parameters. A select box whose value may be empty,
 * the literal "none" or a numeric id is a Choice.
 */
module AdminRoutes {
  import opened Models

  /** Why an admin route stored nothing. */
  datatype Failure =
    | NotFound             // `get_or_404`
    | NameRequired         // empty area name
    | NameTaken            // another area already has the name
    | MissingFields        // dni, name, email or profile missing or empty
    | DuplicateIdentity    // another technician has the e-mail or the DNI
    | HasTechnicians       // the area still has technicians
    | HasCategories        // the area still has categories
    | SaveFailed           // an exception inside the route's try block; nothing is committed
    | ConstraintViolation  // the commit would break a declared unique constraint

  datatype Outcome<T> = Done(value: T) | Refused(why: Failure)

  /** A select box value: empty, the literal "none", or an id. */
  datatype Choice = Blank | NoneChoice | Chosen(id: int)

  /** The fields of the edit-technician form. */
  datatype TechnicianForm = TechnicianForm(
    dni: Option<string>,
    name: Option<string>,
    email: Option<string>,
    profile: Option<string>,
    area: Choice,
    isJefeArea: bool)

  /** `area.technicians`: the technicians whose `area_id` is the area's id. */
  function AreaTechnicians(technicians: map<int, TechnicianRow>, a: int): set<int>
  {
    set id | id in technicians && technicians[id].areaId == Some(a)
  }

  /** `area.categories`: the categories whose `area_id` is the area's id. */
  function AreaCategories(categories: map<int, Category>, a: int): set<int>
  {
    set id | id in categories && categories[id].areaId == Some(a)
  }

  /** Every `area_id` stored on a technician or a category names an existing area. */
  predicate AreaRefsValid(technicians: map<int, TechnicianRow>, categories: map<int, Category>,
                          areas: map<int, Area>)
  {
    && (forall id :: id in technicians && technicians[id].areaId.Some? ==> technicians[id].areaId.value in areas)
    && (forall id :: id in categories && categories[id].areaId.Some? ==> categories[id].areaId.value in areas)
  }

  /**
   * The technicians table after `manage_area_technicians(a)` with the
   * submitted ids: exactly the submitted technicians that exist are in the
   * area afterwards; those that left it have no area; no other row changes.
   */
  function RelinkedTechnicians(technicians: map<int, TechnicianRow>, a: int, submitted: seq<int>)
    : (r: map<int, TechnicianRow>)
    ensures r.Keys == technicians.Keys
    ensures AreaTechnicians(r, a) == set id | id in technicians && id in submitted
    ensures forall id :: id in r ==> r[id] == technicians[id].(areaId := r[id].areaId)
    ensures forall id :: id in r && id !in submitted ==>
              r[id].areaId == (if technicians[id].areaId == Some(a) then None else technicians[id].areaId)
  {
    map id | id in technicians ::
      if id in submitted then technicians[id].(areaId := Some(a))
      else if technicians[id].areaId == Some(a) then technicians[id].(areaId := None)
      else technicians[id]
  }

  /** The categories table after `manage_area_categories(a)`: the same set replacement on `area_id`. */
  function RelinkedCategories(categories: map<int, Category>, a: int, submitted: seq<int>)
    : (r: map<int, Category>)
    ensures r.Keys == categories.Keys
    ensures AreaCategories(r, a) == set id | id in categories && id in submitted
    ensures forall id :: id in r ==> r[id] == categories[id].(areaId := r[id].areaId)
    ensures forall id :: id in r && id !in submitted ==>
              r[id].areaId == (if categories[id].areaId == Some(a) then None else categories[id].areaId)
  {
    map id | id in categories ::
      if id in submitted then categories[id].(areaId := Some(a))
      else if categories[id].areaId == Some(a) then categories[id].(areaId := None)
      else categories[id]
  }

  /** Submitting the same selection twice gives the same table as submitting it once. */
  lemma RelinkIdempotent(technicians: map<int, TechnicianRow>, a: int, submitted: seq<int>)
    ensures RelinkedTechnicians(RelinkedTechnicians(technicians, a, submitted), a, submitted)
         == RelinkedTechnicians(technicians, a, submitted)
  {
  }

  /** Submitting the area's current members changes nothing. */
  lemma RelinkCurrentMembersIsNoOp(technicians: map<int, TechnicianRow>, a: int, submitted: seq<int>)
    requires forall id :: id in technicians ==> (id in submitted <==> technicians[id].areaId == Some(a))
    ensures RelinkedTechnicians(technicians, a, submitted) == technicians
  {
    var r := RelinkedTechnicians(technicians, a, submitted);
    forall id | id in technicians
      ensures r[id] == technicians[id]
    {
    }
  }

  /** A relink to an existing area keeps every stored `area_id` pointing at an existing area. */
  lemma RelinkKeepsAreaRefs(technicians: map<int, TechnicianRow>, categories: map<int, Category>,
                            areas: map<int, Area>, a: int, submittedTechs: seq<int>, submittedCats: seq<int>)
    requires a in areas && AreaRefsValid(technicians, categories, areas)
    ensures AreaRefsValid(RelinkedTechnicians(technicians, a, submittedTechs),
                          RelinkedCategories(categories, a, submittedCats), areas)
  {
  }

  /** `toggle_category`: the category with its `active` flag negated. */
  function Toggled(c: Category): (r: Category)
    ensures r.active != c.active
    ensures r == c.(active := r.active)
  {
    c.(active := !c.active)
  }

  /** Toggling twice restores the original category. */
  lemma ToggleTwiceRestores(c: Category)
    ensures Toggled(Toggled(c)) == c
  {
  }

  /** `bool(all([dni, name, email, profile]))`. */
  predicate AllGiven(form: TechnicianForm)
  {
    Truthy(form.dni) && Truthy(form.name) && Truthy(form.email) && Truthy(form.profile)
  }

  /** Another technician already uses the submitted e-mail or DNI. */
  predicate IdentityClash(technicians: map<int, TechnicianRow>, id: int, form: TechnicianForm)
    requires AllGiven(form)
  {
    exists other :: other in technicians && other != id &&
      (technicians[other].email == form.email.value || technicians[other].dni == form.dni.value)
  }

  /** The areas table after the chief handling of `edit_technician`, and whether the warning was shown. */
  datatype ChiefOutcome = ChiefOutcome(areas: map<int, Area>, kept: bool)

  /**
   * The chief handling of `edit_technician` for technician `id`, given the
   * parsed area id (None when the field was empty). Ticking the box with an
   * area makes the technician its chief unless another existing technician
   * already leads it, in which case that chief is kept and a warning is
   * shown; unticking it clears every area the technician leads. None when
   * the area does not exist (the lookup fails and the route stores nothing).
   */
  function ChiefHandling(areas: map<int, Area>, technicians: map<int, TechnicianRow>, id: int,
                         isJefeArea: bool, areaId: Option<int>): (r: Option<ChiefOutcome>)
    ensures r.None? <==> isJefeArea && areaId.Some? && areaId.value !in areas
    ensures r.Some? ==> r.value.areas.Keys == areas.Keys
    ensures r.Some? ==> forall k :: k in areas ==> r.value.areas[k].name == areas[k].name
    ensures r.Some? && r.value.kept ==> r.value.areas == areas
    ensures r.Some? && isJefeArea && areaId.Some? ==>
              var a := areaId.value;
              && (r.value.kept <==> areas[a].chiefId.Some? && areas[a].chiefId.value in technicians
                                    && areas[a].chiefId != Some(id))
              && (!r.value.kept ==> r.value.areas == areas[a := areas[a].(chiefId := Some(id))])
    ensures r.Some? && isJefeArea && areaId.None? ==> r.value == ChiefOutcome(areas, false)
    ensures r.Some? && !isJefeArea ==>
              && !r.value.kept
              && (forall k :: k in areas ==> r.value.areas[k].chiefId != Some(id))
              && (forall k :: k in areas && areas[k].chiefId == Some(id) ==> r.value.areas[k] == areas[k].(chiefId := None))
              && (forall k :: k in areas && areas[k].chiefId != Some(id) ==> r.value.areas[k] == areas[k])
  {
    if isJefeArea && areaId.Some? then
      var a := areaId.value;
      if a !in areas then None
      else
        var current := areas[a].chiefId;
        if current.Some? && current.value in technicians && current.value != id then Some(ChiefOutcome(areas, true))
        else Some(ChiefOutcome(areas[a := areas[a].(chiefId := Some(id))], false))
    else if !isJefeArea then
      Some(ChiefOutcome(map k | k in areas :: if areas[k].chiefId == Some(id) then areas[k].(chiefId := None) else areas[k],
                        false))
    else Some(ChiefOutcome(areas, false))
  }

  /**
   * Starting from a table where chiefs are unique, the chief handling can
   * break uniqueness only by making a technician chief of a second area.
   */
  lemma ChiefHandlingBreaksOnlySecondLead(areas: map<int, Area>, technicians: map<int, TechnicianRow>,
                                                             id: int, isJefeArea: bool, areaId: Option<int>)
    requires ChiefsUnique(areas)
    requires ChiefHandling(areas, technicians, id, isJefeArea, areaId).Some?
    requires !ChiefsUnique(ChiefHandling(areas, technicians, id, isJefeArea, areaId).value.areas)
    ensures isJefeArea && areaId.Some?
    ensures exists k :: k in areas && k != areaId.value && areas[k].chiefId == Some(id)
  {
    var r := ChiefHandling(areas, technicians, id, isJefeArea, areaId).value.areas;
    var x, y :| x in r && y in r && x != y && r[x].chiefId.Some? && r[x].chiefId == r[y].chiefId;
    if x == areaId.value {
      assert areas[y].chiefId == Some(id);
    } else {
      assert areas[x].chiefId == Some(id);
    }
  }

  /** The technician row `edit_technician` writes before the chief handling. */
  function EditedRow(form: TechnicianForm): (r: TechnicianRow)
    requires AllGiven(form) && !form.area.NoneChoice?
    ensures r.dni == form.dni.value && r.name == form.name.value && r.email == form.email.value
    ensures r.technicalProfile == form.profile
    ensures r.areaId.Some? <==> form.area.Chosen?
    ensures form.area.Chosen? ==> r.areaId == Some(form.area.id)
  {
    TechnicianRow(form.dni.value, form.name.value, form.email.value, form.profile,
                  if form.area.Chosen? then Some(form.area.id) else None)
  }

  /** The area id `edit_technician` parses from the form: None for an empty field. */
  function FormAreaId(form: TechnicianForm): Option<int>
  {
    if form.area.Chosen? then Some(form.area.id) else None
  }

  /**
   * The chief handling of `edit_technician` raises nothing and leaves chiefs
   * unique, so the route's commit goes through.
   */
  predicate HandlingCommits(areas: map<int, Area>, technicians: map<int, TechnicianRow>, id: int,
                            form: TechnicianForm)
  {
    var h := ChiefHandling(areas, technicians, id, form.isJefeArea, FormAreaId(form));
    h.Some? && ChiefsUnique(h.value.areas)
  }

  /**
   * When the chosen area already has another chief, the route only shows a
   * warning: the chief is kept and the rest of the edit is still committed.
   */
  lemma KeptChiefStillCommits(areas: map<int, Area>, technicians: map<int, TechnicianRow>, id: int,
                              form: TechnicianForm)
    requires ChiefsUnique(areas)
    requires form.isJefeArea && form.area.Chosen? && form.area.id in areas
    requires var chief := areas[form.area.id].chiefId;
             chief.Some? && chief.value in technicians && chief.value != id
    ensures HandlingCommits(areas, technicians, id, form)
    ensures ChiefHandling(areas, technicians, id, form.isJefeArea, FormAreaId(form)).value
         == ChiefOutcome(areas, true)
  {
  }

  /** The organisation tables. */
  class Organisation {
    var technicians: map<int, TechnicianRow>
    var categories: map<int, Category>
    var areas: map<int, Area>

    /** The unique constraints the model classes declare. */
    predicate Valid()
      reads this
    {
      AreaNamesUnique(areas) && ChiefsUnique(areas) && IdentitiesUnique(technicians)
    }

    constructor (technicians: map<int, TechnicianRow>, categories: map<int, Category>, areas: map<int, Area>)
      requires AreaNamesUnique(areas) && ChiefsUnique(areas) && IdentitiesUnique(technicians)
      ensures Valid()
      ensures this.technicians == technicians && this.categories == categories && this.areas == areas
    {
      this.technicians := technicians;
      this.categories := categories;
      this.areas := areas;
    }

    /**
     * `manage_area_technicians`: technicians of the area that were not
     * submitted lose their area, then every submitted technician that
     * exists joins it (leaving any other area); unknown ids are skipped.
     */
    method ManageAreaTechnicians(a: int, submitted: seq<int>) returns (r: Outcome<()>)
      requires Valid()
      modifies this`technicians
      ensures Valid()
      ensures a !in areas ==> r == Refused(NotFound) && technicians == old(technicians)
      ensures a in areas ==> r == Done(()) && technicians == RelinkedTechnicians(old(technicians), a, submitted)
    {
      if a !in areas {
        return Refused(NotFound);
      }
      var table := technicians;
      ghost var before := table;
      var members := AreaTechnicians(table, a);
      var pending := members;
      while pending != {}
        invariant pending <= members
        invariant table.Keys == before.Keys
        invariant forall id :: id in table ==>
                    table[id] == (if id in members - pending && id !in submitted
                                        then before[id].(areaId := None) else before[id])
        decreases pending
      {
        if forall x :: x !in pending {
          assert false;  // pending is not empty
        }
        var t :| t in pending;
        if t !in submitted && t in table {
          table := table[t := table[t].(areaId := None)];
        }
        pending := pending - {t};
      }
      ghost var cleared := table;
      for i := 0 to |submitted|
        invariant table.Keys == before.Keys
        invariant forall id :: id in table ==>
                    table[id] == (if id in submitted[..i] then cleared[id].(areaId := Some(a)) else cleared[id])
      {
        var id := submitted[i];
        if id in table {
          table := table[id := table[id].(areaId := Some(a))];
        }
      }
      assert submitted[..|submitted|] == submitted;
      forall id | id in table
        ensures table[id] == RelinkedTechnicians(before, a, submitted)[id]
      {
      }
      technicians := table;
      r := Done(());
    }

    /** `manage_area_categories`: the same set replacement on the categories' `area_id`. */
    method ManageAreaCategories(a: int, submitted: seq<int>) returns (r: Outcome<()>)
      requires Valid()
      modifies this`categories
      ensures Valid()
      ensures a !in areas ==> r == Refused(NotFound) && categories == old(categories)
      ensures a in areas ==> r == Done(()) && categories == RelinkedCategories(old(categories), a, submitted)
    {
      if a !in areas {
        return Refused(NotFound);
      }
      var table := categories;
      ghost var before := table;
      var members := AreaCategories(table, a);
      var pending := members;
      while pending != {}
        invariant pending <= members
        invariant table.Keys == before.Keys
        invariant forall id :: id in table ==>
                    table[id] == (if id in members - pending && id !in submitted
                                       then before[id].(areaId := None) else before[id])
        decreases pending
      {
        if forall x :: x !in pending {
          assert false;  // pending is not empty
        }
        var c :| c in pending;
        if c !in submitted && c in table {
          table := table[c := table[c].(areaId := None)];
        }
        pending := pending - {c};
      }
      ghost var cleared := table;
      for i := 0 to |submitted|
        invariant table.Keys == before.Keys
        invariant forall id :: id in table ==>
                    table[id] == (if id in submitted[..i] then cleared[id].(areaId := Some(a)) else cleared[id])
      {
        var id := submitted[i];
        if id in table {
          table := table[id := table[id].(areaId := Some(a))];
        }
      }
      assert submitted[..|submitted|] == submitted;
      forall id | id in table
        ensures table[id] == RelinkedCategories(before, a, submitted)[id]
      {
      }
      categories := table;
      r := Done(());
    }

    /**
     * `delete_area`: refused while any technician (checked first) or any
     * category is in the area; otherwise the area is removed, and no stored
     * `area_id` is left pointing at it.
     */
    method DeleteArea(a: int) returns (r: Outcome<()>)
      requires Valid()
      modifies this`areas
      ensures Valid()
      ensures r == Refused(NotFound) <==> a !in old(areas)
      ensures r == Refused(HasTechnicians) <==> a in old(areas) && AreaTechnicians(technicians, a) != {}
      ensures r == Refused(HasCategories) <==>
                a in old(areas) && AreaTechnicians(technicians, a) == {} && AreaCategories(categories, a) != {}
      ensures r.Done? <==> a in old(areas) && AreaTechnicians(technicians, a) == {} && AreaCategories(categories, a) == {}
      ensures r.Refused? ==> areas == old(areas)
      ensures r.Done? ==> areas == old(areas) - {a}
      ensures AreaRefsValid(technicians, categories, old(areas)) ==> AreaRefsValid(technicians, categories, areas)
    {
      if a !in areas {
        return Refused(NotFound);
      }
      if AreaTechnicians(technicians, a) != {} {
        return Refused(HasTechnicians);
      }
      if AreaCategories(categories, a) != {} {
        return Refused(HasCategories);
      }
      areas := areas - {a};
      r := Done(());
      forall id | id in technicians
        ensures technicians[id].areaId != Some(a)
      {
        assert id !in AreaTechnicians(technicians, a);
      }
      forall id | id in categories
        ensures categories[id].areaId != Some(a)
      {
        assert id !in AreaCategories(categories, a);
      }
    }

    /** `toggle_category`: negates the category's `active` flag. */
    method ToggleCategory(id: int) returns (r: Outcome<bool>)
      modifies this`categories
      ensures id !in old(categories) ==> r == Refused(NotFound) && categories == old(categories)
      ensures id in old(categories) ==>
                && categories == old(categories)[id := Toggled(old(categories)[id])]
                && r == Done(categories[id].active)
    {
      if id !in categories {
        return Refused(NotFound);
      }
      categories := categories[id := categories[id].(active := !categories[id].active)];
      r := Done(categories[id].active);
    }

    /**
     * `add_area`: the name must be given and unused; a chief is set when
     * the select box holds an id. The commit fails when that technician
     * already leads an area.
     */
    method AddArea(newId: int, name: Option<string>, chief: Choice) returns (r: Outcome<int>)
      requires Valid()
      requires newId !in areas
      modifies this`areas
      ensures Valid()
      ensures r == Refused(NameRequired) <==> !Truthy(name)
      ensures r == Refused(NameTaken) <==> Truthy(name) && exists k :: k in old(areas) && old(areas)[k].name == name.value
      ensures r == Refused(ConstraintViolation) <==>
                && Truthy(name) && (forall k :: k in old(areas) ==> old(areas)[k].name != name.value)
                && chief.Chosen? && exists k :: k in old(areas) && old(areas)[k].chiefId == Some(chief.id)
      ensures r.Done? <==>
                && Truthy(name) && (forall k :: k in old(areas) ==> old(areas)[k].name != name.value)
                && !(chief.Chosen? && exists k :: k in old(areas) && old(areas)[k].chiefId == Some(chief.id))
      ensures r.Refused? ==> areas == old(areas)
      ensures r.Done? ==>
                && r.value == newId
                && areas == old(areas)[newId := Area(name.value, if chief.Chosen? then Some(chief.id) else None)]
    {
      if !Truthy(name) {
        return Refused(NameRequired);
      }
      if exists k :: k in areas && areas[k].name == name.value {
        return Refused(NameTaken);
      }
      var area := Area(name.value, None);
      if chief.Chosen? {
        area := area.(chiefId := Some(chief.id));
      }
      var updated := areas[newId := area];
      if chief.Chosen? && exists k :: k in areas && areas[k].chiefId == Some(chief.id) {
        var k :| k in areas && areas[k].chiefId == Some(chief.id);
        assert updated[newId].chiefId == updated[k].chiefId;
      }
      if !ChiefsUnique(updated) {
        return Refused(ConstraintViolation);
      }
      areas := updated;
      r := Done(newId);
    }

    /** `edit_area`'s chief field: "none" clears the chief, an empty value keeps it, an id replaces it. */
    static function EditedChief(chief: Choice, current: Option<int>): Option<int>
    {
      match chief
      case NoneChoice => None
      case Blank => current
      case Chosen(c) => Some(c)
    }

    /**
     * `edit_area`: the name must be given and not held by another area; the
     * chief is cleared by "none", kept by an empty value and replaced by an
     * id. The commit fails when the new chief already leads another area.
     */
    method EditArea(id: int, name: Option<string>, chief: Choice) returns (r: Outcome<()>)
      requires Valid()
      modifies this`areas
      ensures Valid()
      ensures r == Refused(NotFound) <==> id !in old(areas)
      ensures r == Refused(NameRequired) <==> id in old(areas) && !Truthy(name)
      ensures r == Refused(NameTaken) <==>
                id in old(areas) && Truthy(name) && exists k :: k in old(areas) && k != id && old(areas)[k].name == name.value
      ensures r == Refused(ConstraintViolation) <==>
                id in old(areas) && Truthy(name) && !(exists k :: k in old(areas) && k != id && old(areas)[k].name == name.value)
                && !ChiefsUnique(old(areas)[id := Area(name.value, EditedChief(chief, old(areas)[id].chiefId))])
      ensures r.Done? <==>
                id in old(areas) && Truthy(name) && !(exists k :: k in old(areas) && k != id && old(areas)[k].name == name.value)
                && ChiefsUnique(old(areas)[id := Area(name.value, EditedChief(chief, old(areas)[id].chiefId))])
      ensures r.Refused? ==> areas == old(areas)
      ensures r.Done? ==> areas == old(areas)[id := Area(name.value, EditedChief(chief, old(areas)[id].chiefId))]
    {
      if id !in areas {
        return Refused(NotFound);
      }
      if !Truthy(name) {
        return Refused(NameRequired);
      }
      if exists k :: k in areas && k != id && areas[k].name == name.value {
        return Refused(NameTaken);
      }
      var area := areas[id].(name := name.value);
      if chief.NoneChoice? {
        area := area.(chiefId := None);
      } else if chief.Chosen? {
        area := area.(chiefId := Some(chief.id));
      }
      var updated := areas[id := area];
      assert AreaNamesUnique(updated);
      if !ChiefsUnique(updated) {
        return Refused(ConstraintViolation);
      }
      areas := updated;
      r := Done(());
    }

    /**
     * `edit_technician`: requires all four identity fields, refuses an
     * e-mail or DNI used by another technician, then overwrites the row,
     * sets or clears its area and applies the chief handling. Anything that
     * raises inside the route's try block (an area field of "none", a chief
     * box ticked for an area that does not exist, a commit that would make
     * the technician chief of a second area) stores nothing. The result
     * tells whether the area's existing chief was kept.
     */
    method EditTechnician(id: int, form: TechnicianForm) returns (r: Outcome<bool>)
      requires Valid()
      modifies this`technicians, this`areas
      ensures Valid()
      ensures r == Refused(NotFound) <==> id !in old(technicians)
      ensures r == Refused(MissingFields) <==> id in old(technicians) && !AllGiven(form)
      ensures r == Refused(DuplicateIdentity) <==>
                id in old(technicians) && AllGiven(form) && IdentityClash(old(technicians), id, form)
      ensures r == Refused(SaveFailed) <==>
                && id in old(technicians) && AllGiven(form) && !IdentityClash(old(technicians), id, form)
                && (form.area.NoneChoice? || !HandlingCommits(old(areas), old(technicians), id, form))
      ensures r.Done? <==>
                && id in old(technicians) && AllGiven(form) && !IdentityClash(old(technicians), id, form)
                && !form.area.NoneChoice? && HandlingCommits(old(areas), old(technicians), id, form)
      ensures r.Refused? ==> technicians == old(technicians) && areas == old(areas)
      ensures r.Done? ==>
                && technicians == old(technicians)[id := EditedRow(form)]
                && ChiefHandling(old(areas), old(technicians), id, form.isJefeArea, FormAreaId(form))
                   == Some(ChiefOutcome(areas, r.value))
    {
      if id !in technicians {
        return Refused(NotFound);
      }
      if !AllGiven(form) {
        return Refused(MissingFields);
      }
      if IdentityClash(technicians, id, form) {
        return Refused(DuplicateIdentity);
      }
      var row := technicians[id];
      row := row.(dni := form.dni.value, name := form.name.value, email := form.email.value,
                  technicalProfile := form.profile);
      var areaId: Option<int>;
      match form.area {
        case NoneChoice => return Refused(SaveFailed);
        case Blank => areaId := None;
        case Chosen(a) => areaId := Some(a);
      }
      row := row.(areaId := areaId);
      var handled := ChiefHandling(areas, technicians, id, form.isJefeArea, areaId);
      if handled.None? || !ChiefsUnique(handled.value.areas) {
        return Refused(SaveFailed);
      }
      var updated := technicians[id := row];
      assert IdentitiesUnique(updated);
      assert AreaNamesUnique(handled.value.areas);
      technicians := updated;
      areas := handled.value.areas;
      r := Done(handled.value.kept);
    }
  }
}
