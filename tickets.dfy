/**
 * The decision logic of the ticket routes: creating a ticket in an area,
 * who may view it, update its status or priority, and deleting it.
 *
 * The session becomes an explicit Principal, submitted form fields become
 * parameters (None for a missing field), the tables the routes query are
 * maps, and e-mails are returned as notices instead of being sent. The
 * `tickets` table is the one table these routes write, held by TicketStore.
 */
module TicketRoutes {
  import opened Models
  import TD = TicketDistributor

  /** The session values the routes read: user_role, user_id, is_jefe_area, managed_area_id, technical_profile. */
  datatype Principal = Principal(
    role: Role,
    id: int,
    isJefeArea: bool,
    managedAreaId: Option<int>,
    technicalProfile: Option<string>)

  /** Why a request changed nothing (each is a flash message and a redirect in the routes). */
  datatype Rejection =
    | NotFound
    | NoActiveCategories
    | InvalidCategory
    | ClosedTicket
    | Forbidden
    | InvalidStatus
    | SolutionRequired
    | InvalidPriority
    | ServerError  // an exception escapes the route

  datatype Result<T> = Ok(value: T) | Err(why: Rejection)

  /** A requester as the notifications read it (`users.nombre`, `users.email`). */
  datatype Contact = Contact(name: string, email: Option<string>)

  /** An e-mail the routes ask the notifier to send. */
  datatype Notice =
    | CreationNotice(to: string, ticketId: int, technicianName: string)
    | AssignmentNotice(to: string, ticketId: int)
    | AreaNotice(to: string, ticketId: int, areaName: string)
    | SolutionNotice(to: string, ticketId: int, technicianName: string, solution: string)

  /** The fields of the creation form: description, category_id, priority. */
  datatype TicketForm = TicketForm(description: string, categoryId: Option<int>, priority: Option<string>)

  /** Whether an access decision allows viewing, and if so whether the page offers updates. */
  datatype Access = Denied | Granted(canUpdate: bool)

  /** The technician row behind `ticket.technician`, if the ticket has one. */
  function TicketTechnician(t: Ticket, technicians: map<int, TechnicianRow>): Option<TechnicianRow>
  {
    if t.technicianId.Some? then Lookup(technicians, t.technicianId.value) else None
  }

  /**
   * The chief clause of view, update_status and update_priority: the
   * ticket's category, or its technician, is in the principal's managed area
   * (Python `==` on optional ids, so None matches None).
   */
  predicate InManagedArea(p: Principal, t: Ticket, categories: map<int, Category>,
                          technicians: map<int, TechnicianRow>)
  {
    || (t.categoryId in categories && categories[t.categoryId].areaId == p.managedAreaId)
    || (var tech := TicketTechnician(t, technicians); tech.Some? && tech.value.areaId == p.managedAreaId)
  }

  /** update_status's permission: an admin, the assigned technician's id, or the chief of the ticket's area. */
  predicate MayUpdateStatus(p: Principal, t: Ticket, categories: map<int, Category>,
                            technicians: map<int, TechnicianRow>)
  {
    || p.role == AdminRole
    || (TicketTechnician(t, technicians).Some? && t.technicianId == Some(p.id))
    || (p.isJefeArea && InManagedArea(p, t, categories, technicians))
  }

  /** update_priority's permission: an admin or the chief of the ticket's area. */
  predicate MayUpdatePriority(p: Principal, t: Ticket, categories: map<int, Category>,
                              technicians: map<int, TechnicianRow>)
  {
    p.role == AdminRole || (p.isJefeArea && InManagedArea(p, t, categories, technicians))
  }

  /**
   * view: admins see everything; chiefs see their area's tickets; a
   * technician sees tickets assigned to them and unassigned tickets of their
   * profile, and may update only the former; a user sees only their own.
   */
  function ViewAccess(p: Principal, t: Ticket, categories: map<int, Category>,
                      technicians: map<int, TechnicianRow>): (a: Access)
    ensures a == Granted(true) ==> p.role != UserRole
    ensures p.role == UserRole ==> (a.Granted? <==> t.userId == Some(p.id))
    ensures p.role == AdminRole ==> a == Granted(true)
    ensures p.role == TechnicianRole && p.isJefeArea && InManagedArea(p, t, categories, technicians) ==> a == Granted(true)
    ensures p.role == TechnicianRole && !(p.isJefeArea && InManagedArea(p, t, categories, technicians)) ==>
              (a.Granted? <==> t.technicianId == Some(p.id) || (t.technicianId.None? && t.profile == p.technicalProfile))
              && (a.Granted? ==> (a.canUpdate <==> t.technicianId == Some(p.id)))
  {
    match p.role
    case AdminRole => Granted(true)
    case TechnicianRole =>
      if p.isJefeArea && InManagedArea(p, t, categories, technicians) then Granted(true)
      else if t.technicianId == Some(p.id) || (t.technicianId.None? && t.profile == p.technicalProfile)
      then Granted(t.technicianId == Some(p.id))
      else Denied
    case UserRole => if t.userId == Some(p.id) then Granted(false) else Denied
  }

  /**
   * When the view page offers updates, update_status accepts the caller
   * (given that the ticket's technician id refers to an existing row).
   */
  lemma ViewUpdateAgrees(p: Principal, t: Ticket, categories: map<int, Category>,
                         technicians: map<int, TechnicianRow>)
    requires t.technicianId.Some? ==> t.technicianId.value in technicians
    requires ViewAccess(p, t, categories, technicians) == Granted(true)
    ensures MayUpdateStatus(p, t, categories, technicians)
  {
  }

  /**
   * The assigned-technician clause of update_status compares ids only: a
   * user-role session whose id equals the technician's id passes it.
   */
  lemma UpdateStatusIgnoresRoleOfId(p: Principal, t: Ticket, categories: map<int, Category>,
                                    technicians: map<int, TechnicianRow>)
    requires p.role == UserRole && t.technicianId == Some(p.id) && p.id in technicians
    ensures MayUpdateStatus(p, t, categories, technicians)
    ensures ViewAccess(p, t, categories, technicians) != Granted(true)
  {
  }

  /** Some active category of the area exists (the route's pre-check before reading the form). */
  predicate HasActiveCategory(categories: map<int, Category>, areaId: int)
  {
    exists c :: c in categories && categories[c].areaId == Some(areaId) && categories[c].active
  }

  /**
   * create_by_area up to the first commit: the checks, and the ticket they
   * store. The category must exist, be active and belong to the URL's area.
   */
  function NewTicket(p: Principal, areaId: int, areas: map<int, Area>, categories: map<int, Category>,
                     form: TicketForm): (r: Result<Ticket>)
    ensures r.Ok? <==>
              && areaId in areas
              && form.categoryId.Some? && form.categoryId.value in categories
              && categories[form.categoryId.value].active
              && categories[form.categoryId.value].areaId == Some(areaId)
    ensures r.Ok? ==>
              && r.value.status == Abierto
              && r.value.technicianId.None? && r.value.solution.None?
              && r.value.userId == Some(p.id)
              && r.value.categoryId == form.categoryId.value
              && r.value.profile == categories[form.categoryId.value].technicalProfile
              && r.value.priority == (if form.priority.Some? then form.priority.value else DefaultPriority)
              && r.value.description == form.description
    ensures r == Err(NotFound) <==> areaId !in areas
    ensures r == Err(NoActiveCategories) <==> areaId in areas && !HasActiveCategory(categories, areaId)
    ensures r == Err(InvalidCategory) <==>
              && areaId in areas && HasActiveCategory(categories, areaId)
              && !(form.categoryId.Some? && form.categoryId.value in categories
                   && categories[form.categoryId.value].active
                   && categories[form.categoryId.value].areaId == Some(areaId))
  {
    if areaId !in areas then Err(NotFound)
    else if !HasActiveCategory(categories, areaId) then
      assert form.categoryId.Some? ==> var c := form.categoryId.value;
        !(c in categories && categories[c].areaId == Some(areaId) && categories[c].active);
      Err(NoActiveCategories)
    else if form.categoryId.None? || form.categoryId.value !in categories then Err(InvalidCategory)
    else
      var category := categories[form.categoryId.value];
      if !category.active || category.areaId != Some(areaId) then Err(InvalidCategory)
      else
        var priority := if form.priority.Some? then form.priority.value else DefaultPriority;
        Ok(Ticket(form.description, Abierto, priority, Some(p.id), None,
                  form.categoryId.value, category.technicalProfile, None))
  }

  /**
   * The creation priority is copied from the form unchecked, so a new ticket
   * can hold a priority that update_priority would refuse.
   */
  lemma CreationPriorityUnchecked(p: Principal, areaId: int, areas: map<int, Area>,
                                  categories: map<int, Category>, form: TicketForm)
    requires NewTicket(p, areaId, areas, categories, form).Ok?
    requires form.priority == Some("urgente")
    ensures NewTicket(p, areaId, areas, categories, form).value.priority !in Priorities
  {
  }

  /** The order the creation notices are sent in: requester, technician, chief. */
  function Rank(n: Notice): nat
  {
    match n
    case CreationNotice(_, _, _) => 0
    case AssignmentNotice(_, _) => 1
    case AreaNotice(_, _, _) => 2
    case SolutionNotice(_, _, _, _) => 3
  }

  /** The creation e-mail to the requester, sent when they exist and have an e-mail. */
  function RequesterNotice(ticketId: int, t: Ticket, requester: Option<Contact>,
                           technicians: map<int, TechnicianRow>): (ns: seq<Notice>)
    ensures |ns| <= 1
    ensures ns != [] <==> requester.Some? && Truthy(requester.value.email)
    ensures ns != [] ==>
              && ns[0].CreationNotice? && ns[0].ticketId == ticketId
              && requester.Some? && requester.value.email.Some? && ns[0].to == requester.value.email.value
              && ns[0].technicianName == (if TicketTechnician(t, technicians).Some?
                                          then TicketTechnician(t, technicians).value.name else "No asignado")
  {
    var tech := TicketTechnician(t, technicians);
    if requester.Some? && Truthy(requester.value.email)
    then [CreationNotice(requester.value.email.value, ticketId, if tech.Some? then tech.value.name else "No asignado")]
    else []
  }

  /** The assignment e-mail to the ticket's technician, sent when they exist and have an e-mail. */
  function TechnicianNotice(ticketId: int, t: Ticket, technicians: map<int, TechnicianRow>): (ns: seq<Notice>)
    ensures |ns| <= 1
    ensures ns != [] <==> TicketTechnician(t, technicians).Some? && TicketTechnician(t, technicians).value.email != ""
    ensures ns != [] ==>
              && ns[0].AssignmentNotice? && ns[0].ticketId == ticketId
              && ns[0].to == TicketTechnician(t, technicians).value.email
  {
    var tech := TicketTechnician(t, technicians);
    if tech.Some? && tech.value.email != "" then [AssignmentNotice(tech.value.email, ticketId)] else []
  }

  /** The e-mail to the area's chief, unless the chief is the assigned technician. */
  function ChiefNotice(ticketId: int, t: Ticket, technicians: map<int, TechnicianRow>, area: Area): (ns: seq<Notice>)
    ensures |ns| <= 1
    ensures ns != [] <==>
              && area.chiefId.Some? && area.chiefId.value in technicians
              && technicians[area.chiefId.value].email != ""
              && area.chiefId != t.technicianId
    ensures ns != [] ==>
              && ns[0].AreaNotice? && ns[0].ticketId == ticketId
              && area.chiefId.Some? && area.chiefId.value in technicians
              && ns[0].to == technicians[area.chiefId.value].email && ns[0].areaName == area.name
  {
    var chief := if area.chiefId.Some? then Lookup(technicians, area.chiefId.value) else None;
    if chief.Some? && chief.value.email != "" && area.chiefId != t.technicianId
    then [AreaNotice(chief.value.email, ticketId, area.name)]
    else []
  }

  /**
   * The notices after creation, in the order they are sent: the requester
   * (if they have an e-mail), the assigned technician (if any, with an
   * e-mail), and the area chief when the chief exists, has an e-mail and is
   * not the assigned technician.
   */
  function CreationNotices(ticketId: int, t: Ticket, requester: Option<Contact>,
                           technicians: map<int, TechnicianRow>, area: Area): (ns: seq<Notice>)
    ensures |ns| <= 3
    ensures (exists n :: n in ns && n.CreationNotice?) <==> requester.Some? && Truthy(requester.value.email)
    ensures (exists n :: n in ns && n.AssignmentNotice?) <==>
              TicketTechnician(t, technicians).Some? && TicketTechnician(t, technicians).value.email != ""
    ensures (exists n :: n in ns && n.AreaNotice?) <==>
              && area.chiefId.Some? && area.chiefId.value in technicians
              && technicians[area.chiefId.value].email != ""
              && area.chiefId != t.technicianId
  {
    var a := RequesterNotice(ticketId, t, requester, technicians);
    var b := TechnicianNotice(ticketId, t, technicians);
    var c := ChiefNotice(ticketId, t, technicians, area);
    assert a != [] ==> a[0] in a + b + c;
    assert b != [] ==> b[0] in a + b + c;
    assert c != [] ==> c[0] in a + b + c;
    a + b + c
  }

  /** The creation notices are sent requester first, chief last, at most one of each kind. */
  lemma CreationNoticesInOrder(ticketId: int, t: Ticket, requester: Option<Contact>,
                               technicians: map<int, TechnicianRow>, area: Area)
    ensures var ns := CreationNotices(ticketId, t, requester, technicians, area);
            forall i, j :: 0 <= i < j < |ns| ==> Rank(ns[i]) < Rank(ns[j])
  {
    var a := RequesterNotice(ticketId, t, requester, technicians);
    var b := TechnicianNotice(ticketId, t, technicians);
    var c := ChiefNotice(ticketId, t, technicians, area);
    var ns := a + b + c;
    forall i, j | 0 <= i < j < |ns|
      ensures Rank(ns[i]) < Rank(ns[j])
    {
      if i < |a| {
        assert ns[i] == a[0];
        if j < |a| + |b| {
          assert ns[j] == b[j - |a|];
        } else {
          assert ns[j] == c[j - |a| - |b|];
        }
      } else {
        assert ns[i] == b[i - |a|];
        assert ns[j] == c[j - |a| - |b|];
      }
    }
  }

  /**
   * Each creation notice is about the new ticket and goes to the person its
   * kind names: the requester's e-mail, the assigned technician's, the
   * chief's.
   */
  lemma CreationNoticeRecipients(ticketId: int, t: Ticket, requester: Option<Contact>,
                                 technicians: map<int, TechnicianRow>, area: Area, n: Notice)
    requires n in CreationNotices(ticketId, t, requester, technicians, area)
    ensures n.ticketId == ticketId && !n.SolutionNotice?
    ensures n.CreationNotice? ==>
              && requester.Some? && requester.value.email.Some? && n.to == requester.value.email.value
              && n.technicianName == (if TicketTechnician(t, technicians).Some?
                                      then TicketTechnician(t, technicians).value.name else "No asignado")
    ensures n.AssignmentNotice? ==>
              TicketTechnician(t, technicians).Some? && n.to == TicketTechnician(t, technicians).value.email
    ensures n.AreaNotice? ==>
              && area.chiefId.Some? && area.chiefId.value in technicians
              && n.to == technicians[area.chiefId.value].email && n.areaName == area.name
  {
    var a := RequesterNotice(ticketId, t, requester, technicians);
    var b := TechnicianNotice(ticketId, t, technicians);
    var c := ChiefNotice(ticketId, t, technicians, area);
    assert n in a || n in b || n in c;
  }

  /** What the notice block of create_by_area gets done: the e-mails sent, and whether it then raises. */
  datatype Sending = Sending(sent: seq<Notice>, raised: bool)

  /**
   * The notice block of create_by_area as written. `EmailService` defines
   * neither `send_ticket_assignment_notification` nor
   * `send_area_ticket_notification`, so the requester's e-mail goes out and
   * the block raises `AttributeError` as soon as it reaches either call:
   * what is sent is the intended notices up to the first one it cannot send.
   */
  function CreationNoticesAsWritten(ticketId: int, t: Ticket, requester: Option<Contact>,
                                    technicians: map<int, TechnicianRow>, area: Area): (s: Sending)
    ensures var ns := CreationNotices(ticketId, t, requester, technicians, area);
            |s.sent| <= |ns| && s.sent == ns[..|s.sent|]
    ensures s.raised <==> |s.sent| < |CreationNotices(ticketId, t, requester, technicians, area)|
    ensures forall n :: n in s.sent ==> n.CreationNotice?
  {
    var a := RequesterNotice(ticketId, t, requester, technicians);
    var b := TechnicianNotice(ticketId, t, technicians);
    var c := ChiefNotice(ticketId, t, technicians, area);
    assert (a + b + c)[..|a|] == a;
    Sending(a, b != [] || c != [])
  }

  /**
   * As written, the notice block raises whenever the assigned technician has
   * an e-mail, or nobody is assigned and the area has a chief with one; the
   * e-mail meant for them is never sent.
   */
  lemma NoticeBlockRaises(ticketId: int, t: Ticket, requester: Option<Contact>,
                          technicians: map<int, TechnicianRow>, area: Area)
    requires || (TicketTechnician(t, technicians).Some? && TicketTechnician(t, technicians).value.email != "")
             || (&& t.technicianId.None? && area.chiefId.Some? && area.chiefId.value in technicians
                 && technicians[area.chiefId.value].email != "")
    ensures var s := CreationNoticesAsWritten(ticketId, t, requester, technicians, area);
            s.raised && forall n :: n in s.sent ==> !n.AssignmentNotice? && !n.AreaNotice?
    ensures exists n :: n in CreationNotices(ticketId, t, requester, technicians, area)
                        && (n.AssignmentNotice? || n.AreaNotice?)
  {
  }

  /** An existing chief with an e-mail always hears about a ticket nobody was assigned. */
  lemma ChiefHearsOfUnassigned(ticketId: int, t: Ticket, requester: Option<Contact>,
                               technicians: map<int, TechnicianRow>, area: Area)
    requires t.technicianId.None?
    requires area.chiefId.Some? && area.chiefId.value in technicians
    requires technicians[area.chiefId.value].email != ""
    ensures exists n :: n in CreationNotices(ticketId, t, requester, technicians, area) && n.AreaNotice?
  {
    var ns := CreationNotices(ticketId, t, requester, technicians, area);
    assert area.chiefId != t.technicianId;
  }

  /**
   * update_status: technicians cannot touch a closed ticket; then the
   * permission check; the new status must be one of the three; closing
   * requires a solution, which is stored with it. Nothing else changes.
   */
  function StatusUpdate(p: Principal, t: Ticket, categories: map<int, Category>,
                        technicians: map<int, TechnicianRow>,
                        newStatus: Option<string>, solution: Option<string>): (r: Result<Ticket>)
    ensures r.Ok? ==> MayUpdateStatus(p, t, categories, technicians)
    ensures r.Ok? ==> !(t.status == Cerrado && p.role == TechnicianRole)
    ensures r.Ok? ==> newStatus.Some? && r.value.status == newStatus.value && r.value.status in Statuses
    ensures r.Ok? ==> r.value == t.(status := r.value.status, solution := r.value.solution)
    ensures r.Ok? ==> r.value.solution == (if r.value.status == Cerrado then solution else t.solution)
    ensures r.Ok? && r.value.status == Cerrado ==> Truthy(r.value.solution)
    ensures r == Err(SolutionRequired) <==>
              && !(t.status == Cerrado && p.role == TechnicianRole)
              && MayUpdateStatus(p, t, categories, technicians)
              && newStatus == Some(Cerrado) && !Truthy(solution)
    ensures r == Err(ClosedTicket) <==> t.status == Cerrado && p.role == TechnicianRole
    ensures r == Err(Forbidden) <==>
              !(t.status == Cerrado && p.role == TechnicianRole) && !MayUpdateStatus(p, t, categories, technicians)
    ensures r == Err(InvalidStatus) <==>
              && !(t.status == Cerrado && p.role == TechnicianRole)
              && MayUpdateStatus(p, t, categories, technicians)
              && !(Truthy(newStatus) && newStatus.value in Statuses)
    ensures r.Ok? <==>
              && !(t.status == Cerrado && p.role == TechnicianRole)
              && MayUpdateStatus(p, t, categories, technicians)
              && Truthy(newStatus) && newStatus.value in Statuses
              && (newStatus.value == Cerrado ==> Truthy(solution))
  {
    if t.status == Cerrado && p.role == TechnicianRole then Err(ClosedTicket)
    else if !MayUpdateStatus(p, t, categories, technicians) then Err(Forbidden)
    else if !(Truthy(newStatus) && newStatus.value in Statuses) then Err(InvalidStatus)
    else if newStatus.value == Cerrado then
      if Truthy(solution) then Ok(t.(status := Cerrado, solution := solution)) else Err(SolutionRequired)
    else Ok(t.(status := newStatus.value))
  }

  /**
   * There is no ordering on statuses: an admin may set any of the three from
   * any current status, including reopening a closed ticket.
   */
  lemma AdminSetsAnyStatus(p: Principal, t: Ticket, categories: map<int, Category>,
                           technicians: map<int, TechnicianRow>, s: string, solution: Option<string>)
    requires p.role == AdminRole && s in Statuses
    requires s == Cerrado ==> Truthy(solution)
    ensures StatusUpdate(p, t, categories, technicians, Some(s), solution)
         == Ok(t.(status := s, solution := if s == Cerrado then solution else t.solution))
  {
  }

  /** The assigned technician moves an open ticket along to `En Proceso`. */
  lemma AssignedTechnicianTakesTicket(p: Principal, t: Ticket, categories: map<int, Category>,
                                      technicians: map<int, TechnicianRow>)
    requires p.role == TechnicianRole && t.status == Abierto
    requires t.technicianId == Some(p.id) && p.id in technicians
    ensures StatusUpdate(p, t, categories, technicians, Some(EnProceso), None) == Ok(t.(status := EnProceso))
  {
  }

  /** A technician-role caller gets nothing changed on a closed ticket, whatever they submit. */
  lemma ClosedIsFinalForTechnicians(p: Principal, t: Ticket, categories: map<int, Category>,
                                    technicians: map<int, TechnicianRow>,
                                    newStatus: Option<string>, solution: Option<string>)
    requires p.role == TechnicianRole && t.status == Cerrado
    ensures StatusUpdate(p, t, categories, technicians, newStatus, solution) == Err(ClosedTicket)
  {
  }

  /** Python truthiness of an optional id column: present and not 0. */
  predicate TruthyId(id: Option<int>)
  {
    id.Some? && id.value != 0
  }

  /**
   * The e-mail to the requester when a ticket is closed with a solution
   * (requester and technician are looked up only for truthy ids).
   */
  function SolutionNoticeFor(ticketId: int, t: Ticket, users: map<int, Contact>,
                             technicians: map<int, TechnicianRow>): (n: Option<Notice>)
    requires t.solution.Some?
    ensures n.Some? <==> TruthyId(t.userId) && t.userId.value in users && Truthy(users[t.userId.value].email)
    ensures n.Some? ==> n.value.SolutionNotice? && n.value.to == users[t.userId.value].email.value
                        && n.value.solution == t.solution.value
  {
    var user := if TruthyId(t.userId) then Lookup(users, t.userId.value) else None;
    var tech := if TruthyId(t.technicianId) then Lookup(technicians, t.technicianId.value) else None;
    if user.Some? && Truthy(user.value.email)
    then Some(SolutionNotice(user.value.email.value, ticketId,
                             if tech.Some? then tech.value.name else "Not assigned", t.solution.value))
    else None
  }

  /**
   * update_priority: an admin or the area's chief may set one of the four
   * priorities; nothing else changes.
   */
  function PriorityUpdate(p: Principal, t: Ticket, categories: map<int, Category>,
                          technicians: map<int, TechnicianRow>, newPriority: Option<string>): (r: Result<Ticket>)
    ensures r.Ok? <==> MayUpdatePriority(p, t, categories, technicians)
                       && newPriority.Some? && newPriority.value in Priorities
    ensures r.Ok? ==> r.value == t.(priority := newPriority.value)
    ensures r == Err(Forbidden) <==> !MayUpdatePriority(p, t, categories, technicians)
    ensures r == Err(InvalidPriority) <==>
              MayUpdatePriority(p, t, categories, technicians) && !(Truthy(newPriority) && newPriority.value in Priorities)
  {
    if !MayUpdatePriority(p, t, categories, technicians) then Err(Forbidden)
    else if Truthy(newPriority) && newPriority.value in Priorities then Ok(t.(priority := newPriority.value))
    else Err(InvalidPriority)
  }

  /** Being the assigned technician is not enough to change a priority. */
  lemma AssignedTechnicianCannotReprioritise(p: Principal, t: Ticket, categories: map<int, Category>,
                                             technicians: map<int, TechnicianRow>, newPriority: Option<string>)
    requires p.role == TechnicianRole && !p.isJefeArea && t.technicianId == Some(p.id)
    ensures PriorityUpdate(p, t, categories, technicians, newPriority) == Err(Forbidden)
  {
  }

  /** What a creation request leaves behind: the tickets table, the route's outcome, the e-mails sent. */
  datatype Creation = Creation(tickets: map<int, Ticket>, result: Result<int>, notices: seq<Notice>)

  /**
   * create_by_area as the route is written: after the first commit it hands
   * the ORM ticket itself to `distribute_ticket`, whose `ticket.get(...)`
   * raises AttributeError, since a model instance has no `get`. Nothing
   * catches it, so the committed ticket stays unassigned, no e-mail goes
   * out and the request ends in a server error.
   */
  function CreateByAreaAsWritten(p: Principal, areaId: int, form: TicketForm, newId: int,
                                 tickets: map<int, Ticket>, areas: map<int, Area>,
                                 categories: map<int, Category>): (c: Creation)
    requires newId !in tickets
    ensures var admitted := NewTicket(p, areaId, areas, categories, form);
            && (admitted.Err? ==> c == Creation(tickets, Err(admitted.why), []))
            && (admitted.Ok? ==>
                  && c.result == Err(ServerError) && c.notices == []
                  && newId in c.tickets && c.tickets[newId].technicianId.None?
                  && c.tickets - {newId} == tickets)
  {
    var admitted := NewTicket(p, areaId, areas, categories, form);
    if admitted.Err? then Creation(tickets, Err(admitted.why), [])
    else
      var stored := tickets[newId := admitted.value];
      assert stored - {newId} == tickets;
      Creation(stored, Err(ServerError), [])
  }

  /**
   * As written, an admitted ticket is never assigned and nobody is told,
   * while the intended creation assigns a technician of the ticket's
   * profile whenever one exists and tells a requester who has an e-mail.
   */
  lemma AsWrittenLeavesTicketUnassigned(p: Principal, areaId: int, form: TicketForm, newId: int,
                                        tickets: map<int, Ticket>, areas: map<int, Area>,
                                        categories: map<int, Category>, staff: map<int, TechnicianRow>,
                                        order: seq<int>, users: map<int, Contact>, roll: nat)
    requires newId !in tickets && TD.ListsTable(staff, order)
    requires NewTicket(p, areaId, areas, categories, form).Ok?
    requires exists id :: id in staff &&
               staff[id].technicalProfile == NewTicket(p, areaId, areas, categories, form).value.profile
    requires p.id in users && Truthy(users[p.id].email)
    ensures var c := CreateByAreaAsWritten(p, areaId, form, newId, tickets, areas, categories);
            c.tickets[newId].technicianId.None? && c.notices == [] && c.result == Err(ServerError)
    ensures var c := CreatedByArea(p, areaId, form, newId, tickets, areas, categories, staff, order, users, roll);
            c.tickets[newId].technicianId.Some? && c.notices != [] && c.result == Ok(newId)
  {
    var c := CreatedByArea(p, areaId, form, newId, tickets, areas, categories, staff, order, users, roll);
    assert Lookup(users, p.id) == Some(users[p.id]);
    var ns := c.notices;
    assert exists n :: n in ns && n.CreationNotice?;
  }

  /**
   * The id of the technician the distributor assigns to a ticket of the
   * given profile, drawing from the whole technicians table: one that has
   * the profile, and None exactly when nobody has it.
   */
  function Distributed(profile: Option<string>, staff: map<int, TechnicianRow>, order: seq<int>, roll: nat)
    : (id: Option<int>)
    requires TD.ListsTable(staff, order)
    ensures id.Some? ==> id.value in staff && staff[id.value].technicalProfile == profile
    ensures id.None? <==> forall k :: k in staff ==> staff[k].technicalProfile != profile
  {
    var view := TD.TicketView(Some(profile));
    var pick := TD.DistributeTicket(TD.TechnicianList(staff, order), view, roll);
    TD.DistributedFromStaff(staff, order, view, roll);
    TD.DistributedOverTable(staff, order, view, roll);
    if pick.Some? then Some(pick.value.id) else None
  }

  /**
   * What create_by_area is meant to leave behind: a rejected request stores
   * nothing and sends nothing; an admitted one stores exactly one new
   * ticket, as NewTicket describes, assigned to a technician of its profile
   * whenever the technicians table has one, and sends the creation notices.
   */
  function CreatedByArea(p: Principal, areaId: int, form: TicketForm, newId: int,
                         tickets: map<int, Ticket>, areas: map<int, Area>, categories: map<int, Category>,
                         staff: map<int, TechnicianRow>, order: seq<int>, users: map<int, Contact>, roll: nat)
    : (c: Creation)
    requires newId !in tickets && TD.ListsTable(staff, order)
    ensures var admitted := NewTicket(p, areaId, areas, categories, form);
            && (admitted.Err? ==> c == Creation(tickets, Err(admitted.why), []))
            && (admitted.Ok? ==>
                  && c.result == Ok(newId) && newId in c.tickets
                  && c.tickets == tickets[newId := c.tickets[newId]]
                  && c.tickets[newId] == admitted.value.(technicianId := c.tickets[newId].technicianId))
    ensures c.result.Ok? ==>
              c.notices == CreationNotices(newId, c.tickets[newId], Lookup(users, p.id), staff, areas[areaId])
    ensures c.result.Ok? && c.tickets[newId].technicianId.Some? ==>
              var id := c.tickets[newId].technicianId.value;
              id in staff && staff[id].technicalProfile == c.tickets[newId].profile
    ensures c.result.Ok? ==>
              (c.tickets[newId].technicianId.None? <==>
                 forall id :: id in staff ==> staff[id].technicalProfile != c.tickets[newId].profile)
  {
    var admitted := NewTicket(p, areaId, areas, categories, form);
    if admitted.Err? then Creation(tickets, Err(admitted.why), [])
    else
      var pick := Distributed(admitted.value.profile, staff, order, roll);
      var ticket := admitted.value.(technicianId := pick);
      Creation(tickets[newId := ticket], Ok(newId),
               CreationNotices(newId, ticket, Lookup(users, p.id), staff, areas[areaId]))
  }

  /**
   * create_by_area with the distributor call repaired but the two missing
   * `EmailService` methods still called: the tables end as intended, the
   * e-mails stop at the first notice that cannot be sent, and the route then
   * ends in a server error.
   */
  function CreateByAreaMissingSenders(p: Principal, areaId: int, form: TicketForm, newId: int,
                                      tickets: map<int, Ticket>, areas: map<int, Area>,
                                      categories: map<int, Category>, staff: map<int, TechnicianRow>,
                                      order: seq<int>, users: map<int, Contact>, roll: nat)
    : (c: Creation)
    requires newId !in tickets && TD.ListsTable(staff, order)
    ensures var intended := CreatedByArea(p, areaId, form, newId, tickets, areas, categories, staff, order, users, roll);
            && c.tickets == intended.tickets
            && |c.notices| <= |intended.notices| && c.notices == intended.notices[..|c.notices|]
            && (c.result == Err(ServerError) <==> intended.result.Ok? && |c.notices| < |intended.notices|)
            && (c.result != Err(ServerError) ==> c == intended)
  {
    var intended := CreatedByArea(p, areaId, form, newId, tickets, areas, categories, staff, order, users, roll);
    if intended.result.Err? then intended
    else
      var s := CreationNoticesAsWritten(newId, intended.tickets[newId], Lookup(users, p.id), staff, areas[areaId]);
      Creation(intended.tickets, if s.raised then Err(ServerError) else intended.result, s.sent)
  }

  /**
   * When every technician has an e-mail, any creation that assigns a
   * technician fails in the code as written: the technician is never told,
   * although the intended creation tells them.
   */
  lemma AssignedCreationFails(p: Principal, areaId: int, form: TicketForm, newId: int,
                              tickets: map<int, Ticket>, areas: map<int, Area>,
                              categories: map<int, Category>, staff: map<int, TechnicianRow>,
                              order: seq<int>, users: map<int, Contact>, roll: nat)
    requires newId !in tickets && TD.ListsTable(staff, order)
    requires NewTicket(p, areaId, areas, categories, form).Ok?
    requires exists id :: id in staff &&
               staff[id].technicalProfile == NewTicket(p, areaId, areas, categories, form).value.profile
    requires forall id :: id in staff ==> staff[id].email != ""
    ensures var c := CreateByAreaMissingSenders(p, areaId, form, newId, tickets, areas, categories, staff, order, users, roll);
            c.result == Err(ServerError) && forall n :: n in c.notices ==> !n.AssignmentNotice?
    ensures exists n :: n in CreatedByArea(p, areaId, form, newId, tickets, areas, categories, staff, order, users, roll).notices
                        && n.AssignmentNotice?
  {
    var intended := CreatedByArea(p, areaId, form, newId, tickets, areas, categories, staff, order, users, roll);
    var t := intended.tickets[newId];
    var id := t.technicianId.value;
    assert TicketTechnician(t, staff) == Some(staff[id]);
    NoticeBlockRaises(newId, t, Lookup(users, p.id), staff, areas[areaId]);
  }

  /** The `tickets` table, which the routes update in place and commit. */
  class TicketStore {
    var tickets: map<int, Ticket>

    constructor (tickets: map<int, Ticket>)
      ensures this.tickets == tickets
    {
      this.tickets := tickets;
    }

    /**
     * create_by_area: store the new ticket, let the distributor pick a
     * technician among `get_technician_list()` (the technicians table listed
     * in `order`), record the pick, and return the notices to send.
     */
    method CreateByArea(p: Principal, areaId: int, form: TicketForm, newId: int,
                        areas: map<int, Area>, categories: map<int, Category>,
                        staff: map<int, TechnicianRow>, order: seq<int>,
                        users: map<int, Contact>, roll: nat)
      returns (r: Result<int>, notices: seq<Notice>)
      requires newId !in tickets
      requires TD.ListsTable(staff, order)
      modifies this
      ensures Creation(tickets, r, notices)
           == CreatedByArea(p, areaId, form, newId, old(tickets), areas, categories, staff, order, users, roll)
    {
      var admitted := NewTicket(p, areaId, areas, categories, form);
      if admitted.Err? {
        return Err(admitted.why), [];
      }
      ghost var before := tickets;
      var ticket := admitted.value;
      tickets := tickets[newId := ticket];
      var pick := Distributed(ticket.profile, staff, order, roll);
      if pick.Some? {
        ticket := ticket.(technicianId := pick);
        tickets := tickets[newId := ticket];
      }
      assert ticket == admitted.value.(technicianId := pick);
      assert tickets == before[newId := ticket];
      r := Ok(newId);
      notices := CreationNotices(newId, ticket, Lookup(users, p.id), staff, areas[areaId]);
    }

    /**
     * update_status: the new status (and, when closing, the solution) is
     * stored only when StatusUpdate accepts it; a close without a solution
     * returns before the commit and leaves the stored ticket as it was.
     */
    method UpdateStatus(p: Principal, id: int, newStatus: Option<string>, solution: Option<string>,
                        categories: map<int, Category>, technicians: map<int, TechnicianRow>,
                        users: map<int, Contact>)
      returns (r: Result<Ticket>, notice: Option<Notice>)
      modifies this
      ensures id !in old(tickets) ==> r == Err(NotFound)
      ensures id in old(tickets) ==> r == StatusUpdate(p, old(tickets)[id], categories, technicians, newStatus, solution)
      ensures r.Ok? ==> tickets == old(tickets)[id := r.value]
      ensures r.Err? ==> tickets == old(tickets)
      ensures notice.Some? ==> r.Ok? && r.value.status == Cerrado
      ensures r.Ok? && r.value.status == Cerrado ==> notice == SolutionNoticeFor(id, r.value, users, technicians)
    {
      notice := None;
      if id !in tickets {
        return Err(NotFound), None;
      }
      var ticket := tickets[id];
      if ticket.status == Cerrado && p.role == TechnicianRole {
        return Err(ClosedTicket), None;
      }
      if !MayUpdateStatus(p, ticket, categories, technicians) {
        return Err(Forbidden), None;
      }
      if Truthy(newStatus) && newStatus.value in Statuses {
        ticket := ticket.(status := newStatus.value);
        if newStatus.value == Cerrado {
          if !Truthy(solution) {
            return Err(SolutionRequired), None;
          }
          ticket := ticket.(solution := solution);
          notice := SolutionNoticeFor(id, ticket, users, technicians);
        }
        tickets := tickets[id := ticket];
        r := Ok(ticket);
      } else {
        r := Err(InvalidStatus);
      }
    }

    /** update_priority: stores the new priority when PriorityUpdate accepts it. */
    method UpdatePriority(p: Principal, id: int, newPriority: Option<string>,
                          categories: map<int, Category>, technicians: map<int, TechnicianRow>)
      returns (r: Result<Ticket>)
      modifies this
      ensures id !in old(tickets) ==> r == Err(NotFound)
      ensures id in old(tickets) ==> r == PriorityUpdate(p, old(tickets)[id], categories, technicians, newPriority)
      ensures r.Ok? ==> tickets == old(tickets)[id := r.value]
      ensures r.Err? ==> tickets == old(tickets)
    {
      if id !in tickets {
        return Err(NotFound);
      }
      var ticket := tickets[id];
      if !MayUpdatePriority(p, ticket, categories, technicians) {
        return Err(Forbidden);
      }
      if Truthy(newPriority) && newPriority.value in Priorities {
        ticket := ticket.(priority := newPriority.value);
        tickets := tickets[id := ticket];
        r := Ok(ticket);
      } else {
        r := Err(InvalidPriority);
      }
    }

    /** delete_ticket: admins only (checked before the lookup); removes the row. */
    method DeleteTicket(p: Principal, id: int) returns (r: Result<int>)
      modifies this
      ensures p.role != AdminRole ==> r == Err(Forbidden) && tickets == old(tickets)
      ensures p.role == AdminRole && id !in old(tickets) ==> r == Err(NotFound) && tickets == old(tickets)
      ensures p.role == AdminRole && id in old(tickets) ==> r == Ok(id) && tickets == old(tickets) - {id}
    {
      if p.role != AdminRole {
        return Err(Forbidden);
      }
      if id !in tickets {
        return Err(NotFound);
      }
      tickets := tickets - {id};
      r := Ok(id);
    }
  }
}
