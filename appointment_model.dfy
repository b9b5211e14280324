/** The appointment document: a booking of one vehicle for one
    (date, time) slot, with its job card (parts and labour), billing fields
    and lifecycle status. */
module AppointmentModel {
  import opened Common

  datatype Status = Scheduled | InProgress | Completed | Cancelled

  /** The status as stored in the document. */
  function StatusName(s: Status): string
  {
    match s
    case Scheduled => "Scheduled"
    case InProgress => "In Progress"
    case Completed => "Completed"
    case Cancelled => "Cancelled"
  }

  /** The enum validator: a stored string names one of the four statuses. */
  function ParseStatus(t: string): (r: Option<Status>)
    ensures r.Some? ==> StatusName(r.value) == t
  {
    if t == "Scheduled" then Some(Scheduled)
    else if t == "In Progress" then Some(InProgress)
    else if t == "Completed" then Some(Completed)
    else if t == "Cancelled" then Some(Cancelled)
    else None
  }

  /** Every status survives being stored and read back, and no other string
      is accepted. */
  lemma StatusRoundTrip(s: Status, t: string)
    ensures ParseStatus(StatusName(s)) == Some(s)
    ensures ParseStatus(t).None? <==> forall u: Status :: StatusName(u) != t
  {
    if ParseStatus(t).None? {
      forall u: Status ensures StatusName(u) != t {
      }
    }
  }

  /** An entry of the job card's parts list. Prices are in cents. */
  datatype PartUsed = PartUsed(inventoryItem: Option<Id>, name: string, quantity: int, salePrice: int)

  /** An entry of the job card's labour list, cost in cents. */
  datatype LaborCharge = LaborCharge(description: string, cost: int)

  datatype Appointment = Appointment(
    id: Id,
    customer: Id,
    vehicle: Id,
    serviceType: string,
    date: string,
    time: string,
    status: Status,
    assignedMechanic: Option<Id>,
    notes: Option<string>,
    description: Option<string>,
    partsUsed: seq<PartUsed>,
    laborItems: seq<LaborCharge>,
    subtotal: int,
    finalCost: int,
    discountEligible: bool,
    startedAt: Option<Timestamp>,
    finishedAt: Option<Timestamp>,
    feedbackSubmitted: bool)

  /** What the part schema demands: a name, and at least one unit. */
  predicate ValidPart(p: PartUsed)
  {
    p.name != "" && p.quantity >= 1
  }

  predicate ValidLabor(l: LaborCharge)
  {
    l.description != ""
  }

  /** What the appointment schema demands of a stored document: the required
      strings are present and every job-card entry is valid. */
  predicate ValidAppointment(a: Appointment)
  {
    && a.serviceType != "" && a.date != "" && a.time != ""
    && (forall i | 0 <= i < |a.partsUsed| :: ValidPart(a.partsUsed[i]))
    && (forall i | 0 <= i < |a.laborItems| :: ValidLabor(a.laborItems[i]))
  }

  /** A new document with the schema's defaults: status Scheduled, no
      mechanic, an empty job card, zero billing and no feedback. */
  function NewAppointment(id: Id, customer: Id, vehicle: Id, serviceType: string,
                          date: string, time: string, discountEligible: bool): (a: Appointment)
    ensures a.id == id && a.customer == customer && a.vehicle == vehicle
    ensures a.serviceType == serviceType && a.date == date && a.time == time
    ensures a.status == Scheduled && a.assignedMechanic.None?
    ensures a.partsUsed == [] && a.laborItems == []
    ensures a.subtotal == 0 && a.finalCost == 0
    ensures a.discountEligible == discountEligible && !a.feedbackSubmitted
    ensures a.startedAt.None? && a.finishedAt.None?
    ensures serviceType != "" && date != "" && time != "" <==> ValidAppointment(a)
  {
    Appointment(id, customer, vehicle, serviceType, date, time, Scheduled, None, None, None,
                [], [], 0, 0, discountEligible, None, None, false)
  }

  function AppointmentId(a: Appointment): Id { a.id }

  /** Amount of one part line. */
  function PartAmount(p: PartUsed): int { p.quantity * p.salePrice }

  function LaborCost(l: LaborCharge): int { l.cost }
}
