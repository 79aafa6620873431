/**
 * `TicketDistributor`: picks, at random, one technician whose profile equals
 * the ticket's profile. `random.choice` is modelled by the index it draws:
 * the pick is element `roll % n` of the n candidates, so every candidate is
 * the pick for some draw.
 */
module TicketDistributor {
  import opened Models

  /** The dict `{'id', 'name', 'profile'}` the distributor is given for each technician. */
  datatype Candidate = Candidate(id: int, name: string, profile: Option<string>)

  /**
   * The ticket as the distributor reads it, a mapping whose 'profile' key is
   * either absent (None) or present with a possibly-null value (Some).
   */
  datatype TicketView = TicketView(profileKey: Option<Option<string>>)

  /** The profile used when the ticket has no 'profile' key. */
  const DefaultProfile: string := "soporte-tecnico"

  /** `ticket.get('profile', 'soporte-tecnico')`. */
  function RoutedProfile(ticket: TicketView): Option<string>
  {
    match ticket.profileKey
    case None => Some(DefaultProfile)
    case Some(p) => p
  }

  /** `[tech for tech in technicians if tech['profile'] == profile]`. */
  function Available(technicians: seq<Candidate>, profile: Option<string>): (r: seq<Candidate>)
    ensures |r| <= |technicians|
    ensures forall c :: c in r <==> c in technicians && c.profile == profile
    decreases |technicians|
  {
    if technicians == [] then []
    else (if technicians[0].profile == profile then [technicians[0]] else [])
         + Available(technicians[1..], profile)
  }

  /** The filter keeps input order: filtering a concatenation concatenates the filtered parts. */
  lemma {:induction false} AvailableKeepsOrder(front: seq<Candidate>, back: seq<Candidate>, profile: Option<string>)
    ensures Available(front + back, profile) == Available(front, profile) + Available(back, profile)
  {
    if front == [] {
      assert front + back == back;
    } else {
      assert (front + back)[0] == front[0];
      assert (front + back)[1..] == front[1..] + back;
      AvailableKeepsOrder(front[1..], back, profile);
    }
  }

  /**
   * `distribute_ticket`: None exactly when no technician has the ticket's
   * profile; otherwise one of the technicians that have it.
   */
  function DistributeTicket(technicians: seq<Candidate>, ticket: TicketView, roll: nat): (r: Option<Candidate>)
    ensures r.None? <==> forall c :: c in technicians ==> c.profile != RoutedProfile(ticket)
    ensures r.Some? ==> r.value in technicians && r.value.profile == RoutedProfile(ticket)
  {
    var available := Available(technicians, RoutedProfile(ticket));
    if available == [] then None
    else
      var pick := available[roll % |available|];
      assert pick in available;
      Some(pick)
  }

  /** No technician is left out of the draw: each matching one is the pick for some roll. */
  lemma EveryMatchReachable(technicians: seq<Candidate>, ticket: TicketView, c: Candidate)
    requires c in technicians && c.profile == RoutedProfile(ticket)
    ensures exists roll: nat :: DistributeTicket(technicians, ticket, roll) == Some(c)
  {
    var available := Available(technicians, RoutedProfile(ticket));
    assert c in available;
    var k :| 0 <= k < |available| && available[k] == c;
    ModBelow(k, |available|);
    assert DistributeTicket(technicians, ticket, k) == Some(available[k % |available|]);
  }

  /** A draw below the number of candidates selects that very index. */
  lemma ModBelow(k: nat, n: nat)
    requires k < n
    ensures k % n == k
  {
  }

  /** A ticket without a 'profile' key is routed like one whose profile is 'soporte-tecnico'. */
  lemma MissingProfileIsSupport(technicians: seq<Candidate>, roll: nat)
    ensures DistributeTicket(technicians, TicketView(None), roll)
         == DistributeTicket(technicians, TicketView(Some(Some(DefaultProfile))), roll)
  {
  }

  /**
   * `get_technician_list`: one candidate per technician row, in the order
   * the query returns the ids, with `profile` taken from `technical_profile`.
   */
  function TechnicianList(staff: map<int, TechnicianRow>, order: seq<int>): (r: seq<Candidate>)
    requires forall i :: 0 <= i < |order| ==> order[i] in staff
    ensures |r| == |order|
    ensures forall i :: 0 <= i < |order| ==>
              r[i] == Candidate(order[i], staff[order[i]].name, staff[order[i]].technicalProfile)
  {
    seq(|order|, i requires 0 <= i < |order| =>
      Candidate(order[i], staff[order[i]].name, staff[order[i]].technicalProfile))
  }

  /**
   * Distributing over the technicians table assigns a technician that
   * exists and whose `technical_profile` is the ticket's profile, and finds
   * one whenever such a technician is listed.
   */
  lemma DistributedFromStaff(staff: map<int, TechnicianRow>, order: seq<int>, ticket: TicketView, roll: nat)
    requires forall i :: 0 <= i < |order| ==> order[i] in staff
    ensures var r := DistributeTicket(TechnicianList(staff, order), ticket, roll);
            && (r.Some? ==> r.value.id in order && r.value.id in staff
                            && staff[r.value.id].technicalProfile == RoutedProfile(ticket)
                            && staff[r.value.id].name == r.value.name)
            && (r.None? <==> forall i :: 0 <= i < |order| ==> staff[order[i]].technicalProfile != RoutedProfile(ticket))
  {
    var list := TechnicianList(staff, order);
    var r := DistributeTicket(list, ticket, roll);
    if r.None? {
      forall i | 0 <= i < |order|
        ensures staff[order[i]].technicalProfile != RoutedProfile(ticket)
      {
        assert list[i] in list;
      }
    } else {
      var k :| 0 <= k < |list| && list[k] == r.value;
      assert list[k].profile == RoutedProfile(ticket);
    }
  }

  /** `Technician.query.all()`: `order` lists every technician of the table exactly once. */
  predicate ListsTable(staff: map<int, TechnicianRow>, order: seq<int>)
  {
    && (forall id :: id in staff ==> id in order)
    && (forall i :: 0 <= i < |order| ==> order[i] in staff)
    && (forall i, j :: 0 <= i < j < |order| ==> order[i] != order[j])
  }

  /**
   * Over the whole technicians table, the distributor finds nobody exactly
   * when no technician of the table has the ticket's profile.
   */
  lemma DistributedOverTable(staff: map<int, TechnicianRow>, order: seq<int>, ticket: TicketView, roll: nat)
    requires ListsTable(staff, order)
    ensures DistributeTicket(TechnicianList(staff, order), ticket, roll).None? <==>
              forall id :: id in staff ==> staff[id].technicalProfile != RoutedProfile(ticket)
  {
    DistributedFromStaff(staff, order, ticket, roll);
    if exists id :: id in staff && staff[id].technicalProfile == RoutedProfile(ticket) {
      var id :| id in staff && staff[id].technicalProfile == RoutedProfile(ticket);
      var i :| 0 <= i < |order| && order[i] == id;
      assert staff[order[i]].technicalProfile == RoutedProfile(ticket);
    }
  }
}
