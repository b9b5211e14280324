/** The complaint handlers' decisions: submission with its defaults, the
    owner-or-manager read, the manager's field merge that stamps the resolver,
    deletion, the listings and the status counts. */
module Complaints {
  import opened Common
  import opened Seqs
  import opened Text
  import opened ComplaintModel

  // ---------------------------------------------------------------------
  // Submission

  /** The request body of `submitComplaint`; a field is None when absent. */
  datatype ComplaintRequest = ComplaintRequest(
    subject: Option<string>, description: Option<string>, appointmentId: Option<Id>, priority: Option<string>)

  /** The priority a submission asks for: the given name, or Medium. */
  function RequestedPriority(req: ComplaintRequest): string
  {
    OrElse(req.priority, "Medium")
  }

  /** `submitComplaint`: 400 without a subject and a description; the
      document is then created Open with priority defaulting to Medium, and
      `Complaint.create` rejects (500) a priority outside the enum and a
      subject that is blank once trimmed. */
  function SubmitComplaint(caller: Caller, req: ComplaintRequest, id: Id): (r: Result<Complaint>)
    ensures r == Err(BadRequest) <==> !Given(req.subject) || !Given(req.description)
    ensures r.Ok? <==>
              && Given(req.subject) && Given(req.description)
              && ParsePriority(RequestedPriority(req)).Some? && Trim(req.subject.value) != ""
    ensures r.Ok? || r == Err(BadRequest) || r == Err(ServerError)
    ensures r.Ok? ==>
              && r.value.id == id && r.value.customer == caller.id
              && r.value.appointment == req.appointmentId
              && r.value.subject == Trim(req.subject.value) && r.value.description == req.description.value
              && r.value.status == Open
              && PriorityName(r.value.priority) == (if Given(req.priority) then req.priority.value else "Medium")
              && r.value.response.None? && r.value.resolvedBy.None? && r.value.resolvedAt.None?
              && ValidComplaint(r.value)
  {
    if !Given(req.subject) || !Given(req.description) then Err(BadRequest)
    else match ParsePriority(RequestedPriority(req))
      case None => Err(ServerError)
      case Some(p) =>
        var c := NewComplaint(id, caller.id, req.appointmentId, req.subject.value, req.description.value, p);
        if ValidComplaint(c) then Ok(c) else Err(ServerError)
  }

  /** With no priority given, a submission is Medium. */
  lemma DefaultPriorityIsMedium(caller: Caller, req: ComplaintRequest, id: Id)
    requires !Given(req.priority) && SubmitComplaint(caller, req, id).Ok?
    ensures SubmitComplaint(caller, req, id).value.priority == Medium
  {
    var p := SubmitComplaint(caller, req, id).value.priority;
    assert PriorityName(p) == "Medium";
  }

  // ---------------------------------------------------------------------
  // Reads

  predicate MayViewComplaint(c: Complaint, caller: Caller)
  {
    c.customer == caller.id || caller.role == Manager
  }

  /** `getComplaintById`: 404 for an unknown id, 403 unless the caller owns
      the ticket or is a manager. */
  function GetComplaint(complaints: seq<Complaint>, caller: Caller, id: Id): (r: Result<Complaint>)
    ensures r == Err(NotFound) <==> forall j | 0 <= j < |complaints| :: complaints[j].id != id
    ensures r.Ok? ==> r.value in complaints && r.value.id == id && MayViewComplaint(r.value, caller)
    ensures r.Ok? || r == Err(NotFound) || r == Err(Forbidden)
  {
    match Lookup(complaints, ComplaintId, id)
    case None => Err(NotFound)
    case Some(c) => if MayViewComplaint(c, caller) then Ok(c) else Err(Forbidden)
  }

  /** With distinct ids, reading the ticket stored under an id succeeds
      exactly for its owner and for managers. */
  lemma GetComplaintIffMayView(complaints: seq<Complaint>, caller: Caller, j: nat)
    requires DistinctKeys(complaints, ComplaintId) && j < |complaints|
    ensures GetComplaint(complaints, caller, complaints[j].id) ==
              (if MayViewComplaint(complaints[j], caller) then Ok(complaints[j]) else Err(Forbidden))
  {
    IndexOfDistinct(complaints, ComplaintId, j);
  }

  /** `getMyComplaints`: exactly the caller's tickets, newest first. */
  function MyComplaints(complaints: seq<Complaint>, caller: Caller): (r: seq<Complaint>)
    ensures forall c :: c in r <==> c in complaints && c.customer == caller.id
    ensures NewestFirst(r, Filter(complaints, (c: Complaint) => c.customer == caller.id))
  {
    var mine := Filter(complaints, (c: Complaint) => c.customer == caller.id);
    ReverseMembers(mine);
    Reverse(mine)
  }

  /** `getAllComplaints`: every ticket, or with a truthy `status` query only
      those whose stored status is that name; newest first. */
  function AllComplaints(complaints: seq<Complaint>, status: Option<string>): (r: seq<Complaint>)
    ensures Given(status) ==> forall c :: c in r <==> c in complaints && ComplaintStatusName(c.status) == status.value
    ensures !Given(status) ==> NewestFirst(r, complaints) && forall c :: c in r <==> c in complaints
    ensures Given(status) ==>
              NewestFirst(r, Filter(complaints, (c: Complaint) => ComplaintStatusName(c.status) == status.value))
  {
    var selected := if Given(status)
                    then Filter(complaints, (c: Complaint) => ComplaintStatusName(c.status) == status.value)
                    else complaints;
    ReverseMembers(selected);
    Reverse(selected)
  }

  // ---------------------------------------------------------------------
  // Manager update

  /** The request body of `updateComplaint`. */
  datatype UpdateRequest = UpdateRequest(status: Option<string>, response: Option<string>, priority: Option<string>)

  /** The update names a closing status, which stamps the resolver. */
  predicate Closes(req: UpdateRequest)
  {
    req.status == Some("Resolved") || req.status == Some("Closed")
  }

  /** The truthy fields of the request name members of their enums (else the
      save fails validation). */
  predicate UpdateNamesValid(req: UpdateRequest)
  {
    && (Given(req.status) ==> ParseComplaintStatus(req.status.value).Some?)
    && (Given(req.priority) ==> ParsePriority(req.priority.value).Some?)
  }

  /** The conditional assignments of `updateComplaint` on a ticket. */
  function MergeComplaint(c: Complaint, caller: Caller, req: UpdateRequest, now: Timestamp): (r: Complaint)
    requires UpdateNamesValid(req)
    ensures r.id == c.id && r.customer == c.customer && r.appointment == c.appointment
    ensures r.subject == c.subject && r.description == c.description
    ensures Given(req.status) ==> ComplaintStatusName(r.status) == req.status.value
    ensures !Given(req.status) ==> r.status == c.status
    ensures Given(req.priority) ==> PriorityName(r.priority) == req.priority.value
    ensures !Given(req.priority) ==> r.priority == c.priority
    ensures r.response == (if Given(req.response) then req.response else c.response)
    ensures Closes(req) ==> r.resolvedBy == Some(caller.id) && r.resolvedAt == Some(now)
    ensures !Closes(req) ==> r.resolvedBy == c.resolvedBy && r.resolvedAt == c.resolvedAt
  {
    var status := if Given(req.status) then ParseComplaintStatus(req.status.value).value else c.status;
    var priority := if Given(req.priority) then ParsePriority(req.priority.value).value else c.priority;
    var response := if Given(req.response) then req.response else c.response;
    var merged := c.(status := status, priority := priority, response := response);
    if Closes(req) then merged.(resolvedBy := Some(caller.id), resolvedAt := Some(now)) else merged
  }

  /** `updateComplaint`: 404 for an unknown ticket; a status or priority
      outside its enum makes the save fail (500) and nothing changes;
      otherwise the merged ticket. `now` is the clock reading of the request. */
  function UpdateComplaint(found: Option<Complaint>, caller: Caller, req: UpdateRequest, now: Timestamp): (r: Result<Complaint>)
    ensures r == Err(NotFound) <==> found.None?
    ensures r == Err(ServerError) <==> found.Some? && (!UpdateNamesValid(req) || !ValidComplaint(found.value))
    ensures r.Ok? <==> found.Some? && UpdateNamesValid(req) && ValidComplaint(found.value)
    ensures r.Ok? ==> UpdateNamesValid(req) && r.value == MergeComplaint(found.value, caller, req, now)
    ensures r.Ok? ==> ValidComplaint(r.value)
  {
    match found
    case None => Err(NotFound)
    case Some(c) =>
      if !UpdateNamesValid(req) then Err(ServerError)
      else
        var m := MergeComplaint(c, caller, req, now);
        if ValidComplaint(m) then Ok(m) else Err(ServerError)
  }

  /** No transition order is enforced: a valid ticket can be moved to any
      status from any status. */
  lemma AnyStatusReachable(c: Complaint, caller: Caller, s: ComplaintStatus, now: Timestamp)
    requires ValidComplaint(c)
    ensures UpdateComplaint(Some(c), caller, UpdateRequest(Some(ComplaintStatusName(s)), None, None), now).Ok?
    ensures UpdateComplaint(Some(c), caller, UpdateRequest(Some(ComplaintStatusName(s)), None, None), now).value.status == s
  {
    var req := UpdateRequest(Some(ComplaintStatusName(s)), None, None);
    assert ParseComplaintStatus(ComplaintStatusName(s)) == Some(s) by {
      match s
      case Open =>
      case InReview =>
      case Resolved =>
      case Closed =>
    }
    assert UpdateNamesValid(req);
    var m := MergeComplaint(c, caller, req, now);
    assert m.status == s;
    assert ValidComplaint(m);
  }

  /** Reopening a resolved ticket keeps the stamp of its resolver. */
  lemma ReopenKeepsResolver(c: Complaint, caller: Caller, now: Timestamp, other: Caller, later: Timestamp)
    requires UpdateComplaint(Some(c), caller, UpdateRequest(Some("Resolved"), None, None), now).Ok?
    ensures var resolved := UpdateComplaint(Some(c), caller, UpdateRequest(Some("Resolved"), None, None), now).value;
            && UpdateComplaint(Some(resolved), other, UpdateRequest(Some("Open"), None, None), later).Ok?
            && UpdateComplaint(Some(resolved), other, UpdateRequest(Some("Open"), None, None), later).value
               == resolved.(status := Open)
  {
  }

  /** Applying the same update twice at the same instant is applying it once. */
  lemma UpdateIdempotent(c: Complaint, caller: Caller, req: UpdateRequest, now: Timestamp)
    requires UpdateComplaint(Some(c), caller, req, now).Ok?
    ensures UpdateComplaint(Some(UpdateComplaint(Some(c), caller, req, now).value), caller, req, now)
            == UpdateComplaint(Some(c), caller, req, now)
  {
  }

  /** `deleteComplaint`: 404 for an unknown ticket, else the ticket to remove. */
  function DeleteComplaint(found: Option<Complaint>): (r: Result<Complaint>)
    ensures r.Ok? <==> found.Some?
    ensures r.Ok? ==> r.value == found.value
    ensures r.Err? ==> r.error == NotFound
  {
    match found
    case None => Err(NotFound)
    case Some(c) => Ok(c)
  }

  // ---------------------------------------------------------------------
  // Counts

  /** `countDocuments({ status })`. */
  function CountStatus(complaints: seq<Complaint>, s: ComplaintStatus): (n: nat)
    ensures n <= |complaints|
  {
    if complaints == [] then 0
    else (if complaints[0].status == s then 1 else 0) + CountStatus(complaints[1..], s)
  }

  lemma {:induction false} StatusesPartition(complaints: seq<Complaint>)
    ensures |complaints| == CountStatus(complaints, Open) + CountStatus(complaints, InReview)
                            + CountStatus(complaints, Resolved) + CountStatus(complaints, Closed)
  {
    if complaints != [] {
      StatusesPartition(complaints[1..]);
    }
  }

  datatype ComplaintStats = ComplaintStats(total: nat, open: nat, inReview: nat, resolved: nat, closed: nat)

  /** `getComplaintStats` without the priority aggregation: the total and
      the four status counts, which add up to the total. */
  function Stats(complaints: seq<Complaint>): (r: ComplaintStats)
    ensures r.total == |complaints|
    ensures r.total == r.open + r.inReview + r.resolved + r.closed
    ensures r.open == CountStatus(complaints, Open) && r.inReview == CountStatus(complaints, InReview)
    ensures r.resolved == CountStatus(complaints, Resolved) && r.closed == CountStatus(complaints, Closed)
  {
    StatusesPartition(complaints);
    ComplaintStats(|complaints|, CountStatus(complaints, Open), CountStatus(complaints, InReview),
                   CountStatus(complaints, Resolved), CountStatus(complaints, Closed))
  }
}
