/**
 * The records of the helpdesk's tables (areas, ticket categories,
 * technicians, tickets, technician-category assignments) and the uniqueness
 * constraints their model classes declare.
 *
 * Tables are maps from primary key to row. Columns the routes read but the
 * model classes do not declare (`area_id` on technicians and on categories)
 * are included, as the migrations add them; `technical_profile` is optional
 * on both, as the migrations make it nullable.
 */
module Models {

  datatype Option<+T> = None | Some(value: T)

  /** `Model.query.get(key)`: the row stored under `key`, if any. */
  function Lookup<K, V>(table: map<K, V>, key: K): (r: Option<V>)
    ensures r.Some? <==> key in table
    ensures r.Some? ==> r.value == table[key]
  {
    if key in table then Some(table[key]) else None
  }

  /** Python truthiness of an optional string: present and not empty. */
  predicate Truthy(s: Option<string>)
  {
    s.Some? && s.value != ""
  }

  // Ticket statuses, as the routes spell them.
  const Abierto: string := "Abierto"
  const EnProceso: string := "En Proceso"
  const Cerrado: string := "Cerrado"
  const Statuses: seq<string> := [Abierto, EnProceso, Cerrado]

  // Ticket priorities, as the routes spell them.
  const Baja: string := "baja"
  const Media: string := "media"
  const Alta: string := "alta"
  const Maxima: string := "maxima"
  const Priorities: seq<string> := [Baja, Media, Alta, Maxima]

  /** Column defaults of `tickets.status` and `tickets.priority`. */
  const DefaultStatus: string := Abierto
  const DefaultPriority: string := Baja

  /** The value of `session['user_role']`. */
  datatype Role = AdminRole | TechnicianRole | UserRole

  /** A row of `technicians` without its credential columns (those live in TechnicianAccount). */
  datatype TechnicianRow = TechnicianRow(
    dni: string,
    name: string,
    email: string,
    technicalProfile: Option<string>,
    areaId: Option<int>)

  /** A row of `ticket_categories`. */
  datatype Category = Category(
    name: string,
    description: Option<string>,
    technicalProfile: Option<string>,
    active: bool,
    areaId: Option<int>)

  /** A row of `areas`: a name and the technician who leads it, if any. */
  datatype Area = Area(name: string, chiefId: Option<int>)

  /** A row of `tickets` (timestamps left out). */
  datatype Ticket = Ticket(
    description: string,
    status: string,
    priority: string,
    userId: Option<int>,
    technicianId: Option<int>,
    categoryId: int,
    profile: Option<string>,
    solution: Option<string>)

  /** A row of `technician_category_assignments` (timestamp left out). */
  datatype Assignment = Assignment(technicianId: int, categoryId: int)

  /** `areas.name` is unique. */
  predicate AreaNamesUnique(areas: map<int, Area>)
  {
    forall a, b :: a in areas && b in areas && a != b ==> areas[a].name != areas[b].name
  }

  /** `areas.jefe_area_id` is unique: a technician leads at most one area. */
  predicate ChiefsUnique(areas: map<int, Area>)
  {
    forall a, b :: a in areas && b in areas && a != b && areas[a].chiefId.Some? ==>
      areas[a].chiefId != areas[b].chiefId
  }

  /** `technicians.dni` and `technicians.email` are unique. */
  predicate IdentitiesUnique(technicians: map<int, TechnicianRow>)
  {
    forall a, b :: a in technicians && b in technicians && a != b ==>
      technicians[a].dni != technicians[b].dni && technicians[a].email != technicians[b].email
  }

  /** A (technician, category) pair is assigned at most once. */
  predicate AssignmentsUnique(assignments: map<int, Assignment>)
  {
    forall a, b :: a in assignments && b in assignments && a != b ==> assignments[a] != assignments[b]
  }

  /** Under the chief constraint, the area a technician leads (`technician.led_area`) is determined. */
  lemma LedAreaUnique(areas: map<int, Area>, chief: int, a: int, b: int)
    requires ChiefsUnique(areas)
    requires a in areas && b in areas
    requires areas[a].chiefId == Some(chief) && areas[b].chiefId == Some(chief)
    ensures a == b
  {
  }
}
