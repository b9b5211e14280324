/** The complaint ticket: a customer's issue, optionally about one
    appointment, with a workflow status and a priority. */
module ComplaintModel {
  import opened Common
  import opened Text

  datatype ComplaintStatus = Open | InReview | Resolved | Closed

  datatype Priority = Low | Medium | High | Urgent

  function ComplaintStatusName(s: ComplaintStatus): string
  {
    match s
    case Open => "Open"
    case InReview => "In Review"
    case Resolved => "Resolved"
    case Closed => "Closed"
  }

  function ParseComplaintStatus(t: string): (r: Option<ComplaintStatus>)
    ensures r.Some? ==> ComplaintStatusName(r.value) == t
  {
    if t == "Open" then Some(Open)
    else if t == "In Review" then Some(InReview)
    else if t == "Resolved" then Some(Resolved)
    else if t == "Closed" then Some(Closed)
    else None
  }

  function PriorityName(p: Priority): string
  {
    match p
    case Low => "Low"
    case Medium => "Medium"
    case High => "High"
    case Urgent => "Urgent"
  }

  function ParsePriority(t: string): (r: Option<Priority>)
    ensures r.Some? ==> PriorityName(r.value) == t
  {
    if t == "Low" then Some(Low)
    else if t == "Medium" then Some(Medium)
    else if t == "High" then Some(High)
    else if t == "Urgent" then Some(Urgent)
    else None
  }

  /** The enum validators accept exactly the four names of each enum. */
  lemma ComplaintEnumsRoundTrip(s: ComplaintStatus, p: Priority, t: string)
    ensures ParseComplaintStatus(ComplaintStatusName(s)) == Some(s)
    ensures ParsePriority(PriorityName(p)) == Some(p)
    ensures ParseComplaintStatus(t).None? <==> forall u: ComplaintStatus :: ComplaintStatusName(u) != t
    ensures ParsePriority(t).None? <==> forall q: Priority :: PriorityName(q) != t
  {
  }

  datatype Complaint = Complaint(
    id: Id,
    customer: Id,
    appointment: Option<Id>,
    subject: string,
    description: string,
    status: ComplaintStatus,
    priority: Priority,
    response: Option<string>,
    resolvedBy: Option<Id>,
    resolvedAt: Option<Timestamp>)

  /** What the schema demands: a trimmed, non-empty subject and a description. */
  predicate ValidComplaint(c: Complaint)
  {
    c.subject != "" && Trimmed(c.subject) && c.description != ""
  }

  /** A new ticket with the schema's defaults: Open, nobody resolved it. */
  function NewComplaint(id: Id, customer: Id, appointment: Option<Id>, subject: string,
                        description: string, priority: Priority): (c: Complaint)
    ensures c.id == id && c.customer == customer && c.appointment == appointment
    ensures c.subject == Trim(subject) && c.description == description && c.priority == priority
    ensures c.status == Open && c.response.None? && c.resolvedBy.None? && c.resolvedAt.None?
    ensures ValidComplaint(c) <==> Trim(subject) != "" && description != ""
  {
    TrimIdempotent(subject);
    Complaint(id, customer, appointment, Trim(subject), description, Open, priority, None, None, None)
  }

  function ComplaintId(c: Complaint): Id { c.id }
}
