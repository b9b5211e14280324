/** The appointment handlers' decisions: booking with its slot rule,
    cancellation, and the role- and owner-gated reads. Each decision is a
    function of the collections it consults. */
module Appointments {
  import opened Common
  import opened Seqs
  import opened Text
  import opened OffPeak
  import opened AppointmentModel
  import opened VehicleModel

  // ---------------------------------------------------------------------
  // Slots

  /** A live appointment holds its (date, time) slot; a cancelled one does not. */
  predicate Blocks(a: Appointment, date: string, time: string)
  {
    a.date == date && a.time == time && a.status != Cancelled
  }

  predicate SlotTaken(appts: seq<Appointment>, date: string, time: string)
  {
    exists i | 0 <= i < |appts| :: Blocks(appts[i], date, time)
  }

  /** The booking invariant: no two live appointments share a slot. */
  predicate SlotsExclusive(appts: seq<Appointment>)
  {
    forall i, j | 0 <= i < j < |appts| :: !Blocks(appts[j], appts[i].date, appts[i].time) || appts[i].status == Cancelled
  }

  // ---------------------------------------------------------------------
  // Booking

  datatype BookingRequest = BookingRequest(
    vehicleId: Option<Id>, serviceType: Option<string>, date: Option<string>, time: Option<string>)

  predicate BookingComplete(req: BookingRequest)
  {
    req.vehicleId.Some? && Given(req.serviceType) && Given(req.date) && Given(req.time)
  }

  predicate OwnsVehicle(vehicles: seq<Vehicle>, customer: Id, vehicleId: Id)
  {
    exists i | 0 <= i < |vehicles| :: vehicles[i].id == vehicleId && vehicles[i].customer == customer
  }

  /** `createAppointment`: required fields, then ownership of the vehicle,
      then the slot, and the new document with the off-peak flag of its date
      (`settings` is what the settings read produced). */
  function Book(appts: seq<Appointment>, vehicles: seq<Vehicle>, caller: Caller, req: BookingRequest,
                settings: SettingsLookup, id: Id): (r: Result<Appointment>)
    ensures r == Err(BadRequest) <==> !BookingComplete(req)
    ensures r == Err(NotFound) <==> BookingComplete(req) && !OwnsVehicle(vehicles, caller.id, req.vehicleId.value)
    ensures r == Err(Conflict) <==>
              && BookingComplete(req) && OwnsVehicle(vehicles, caller.id, req.vehicleId.value)
              && SlotTaken(appts, req.date.value, req.time.value)
    ensures r.Ok? <==>
              && BookingComplete(req) && OwnsVehicle(vehicles, caller.id, req.vehicleId.value)
              && !SlotTaken(appts, req.date.value, req.time.value)
    ensures r.Ok? ==>
              && r.value.id == id && r.value.customer == caller.id && r.value.vehicle == req.vehicleId.value
              && r.value.serviceType == req.serviceType.value
              && r.value.date == req.date.value && r.value.time == req.time.value
              && r.value.status == Scheduled
              && r.value.discountEligible == CheckOffPeakDay(req.date.value, settings)
              && ValidAppointment(r.value)
  {
    if !BookingComplete(req) then Err(BadRequest)
    else if !OwnsVehicle(vehicles, caller.id, req.vehicleId.value) then Err(NotFound)
    else if SlotTaken(appts, req.date.value, req.time.value) then Err(Conflict)
    else
      Ok(NewAppointment(id, caller.id, req.vehicleId.value, req.serviceType.value, req.date.value,
                        req.time.value, CheckOffPeakDay(req.date.value, settings)))
  }

  /** A successful booking keeps the slot invariant. */
  lemma BookKeepsSlotsExclusive(appts: seq<Appointment>, vehicles: seq<Vehicle>, caller: Caller,
                                req: BookingRequest, settings: SettingsLookup, id: Id)
    requires SlotsExclusive(appts)
    requires Book(appts, vehicles, caller, req, settings, id).Ok?
    ensures SlotsExclusive(appts + [Book(appts, vehicles, caller, req, settings, id).value])
  {
  }

  /** Once a slot has been booked, a second booking of it is refused with 409,
      whoever asks. */
  lemma NoDoubleBooking(appts: seq<Appointment>, vehicles: seq<Vehicle>, caller: Caller, req: BookingRequest,
                        settings: SettingsLookup, id: Id, other: Caller, req2: BookingRequest, id2: Id)
    requires Book(appts, vehicles, caller, req, settings, id).Ok?
    requires BookingComplete(req2) && OwnsVehicle(vehicles, other.id, req2.vehicleId.value)
    requires req2.date == req.date && req2.time == req.time
    ensures Book(appts + [Book(appts, vehicles, caller, req, settings, id).value],
                 vehicles, other, req2, settings, id2) == Err(Conflict)
  {
    var a := Book(appts, vehicles, caller, req, settings, id).value;
    var s := appts + [a];
    assert Blocks(s[|appts|], req.date.value, req.time.value);
  }

  /** A slot whose only occupants are cancelled can be booked again. */
  lemma CancelledDoNotBlock(appts: seq<Appointment>, vehicles: seq<Vehicle>, caller: Caller, req: BookingRequest,
                            settings: SettingsLookup, id: Id)
    requires BookingComplete(req) && OwnsVehicle(vehicles, caller.id, req.vehicleId.value)
    requires forall i | 0 <= i < |appts| :: appts[i].date == req.date.value && appts[i].time == req.time.value
                                           ==> appts[i].status == Cancelled
    ensures Book(appts, vehicles, caller, req, settings, id).Ok?
  {
  }

  // ---------------------------------------------------------------------
  // Cancellation

  /** `cancelAppointment` on the document found (or not) under the id: only
      the owner, and only from Scheduled; the result is the updated document. */
  function Cancel(found: Option<Appointment>, caller: Caller): (r: Result<Appointment>)
    ensures found.None? ==> r == Err(NotFound)
    ensures found.Some? && found.value.customer != caller.id ==> r == Err(Forbidden)
    ensures found.Some? && found.value.customer == caller.id && found.value.status != Scheduled
            ==> r == Err(BadRequest)
    ensures r.Ok? <==> found.Some? && found.value.customer == caller.id && found.value.status == Scheduled
    ensures r.Ok? ==> r.value == found.value.(status := Cancelled)
  {
    match found
    case None => Err(NotFound)
    case Some(a) =>
      if a.customer != caller.id then Err(Forbidden)
      else match a.status
        case Completed => Err(BadRequest)
        case Cancelled => Err(BadRequest)
        case InProgress => Err(BadRequest)
        case Scheduled => Ok(a.(status := Cancelled))
  }

  /** Cancelling keeps the slot invariant, and frees the slot: afterwards the
      slot can be booked again. */
  lemma CancelFreesSlot(appts: seq<Appointment>, i: nat, caller: Caller)
    requires SlotsExclusive(appts) && i < |appts|
    requires Cancel(Some(appts[i]), caller).Ok?
    ensures SlotsExclusive(appts[i := Cancel(Some(appts[i]), caller).value])
    ensures !SlotTaken(appts[i := Cancel(Some(appts[i]), caller).value], appts[i].date, appts[i].time)
  {
    var a := appts[i];
    var s := appts[i := a.(status := Cancelled)];
    forall j, k | 0 <= j < k < |s|
      ensures !Blocks(s[k], s[j].date, s[j].time) || s[j].status == Cancelled
    {
      assert s[j] == appts[j] || j == i;
      assert s[k] == appts[k] || k == i;
    }
    forall j | 0 <= j < |s| ensures !Blocks(s[j], a.date, a.time) {
      if j < i {
        assert !Blocks(appts[i], appts[j].date, appts[j].time) || appts[j].status == Cancelled;
      } else if j > i {
        assert a.status != Cancelled;
        assert !Blocks(appts[j], appts[i].date, appts[i].time);
      }
    }
  }

  // ---------------------------------------------------------------------
  // Reads

  /** The caller may see the appointment: its customer, its mechanic, or a manager. */
  predicate MayView(a: Appointment, caller: Caller)
  {
    a.customer == caller.id || a.assignedMechanic == Some(caller.id) || caller.role == Manager
  }

  /** `getAppointmentById`. */
  function GetAppointment(appts: seq<Appointment>, caller: Caller, id: Id): (r: Result<Appointment>)
    ensures r == Err(NotFound) <==> forall j | 0 <= j < |appts| :: appts[j].id != id
    ensures r.Ok? ==> r.value in appts && r.value.id == id && MayView(r.value, caller)
    ensures r.Ok? || r == Err(NotFound) || r == Err(Forbidden)
  {
    match Lookup(appts, AppointmentId, id)
    case None => Err(NotFound)
    case Some(a) => if MayView(a, caller) then Ok(a) else Err(Forbidden)
  }

  /** With distinct ids, viewing the appointment stored under an id succeeds
      exactly when the caller may see that appointment. */
  lemma GetAppointmentIffMayView(appts: seq<Appointment>, caller: Caller, j: nat)
    requires DistinctKeys(appts, AppointmentId) && j < |appts|
    ensures GetAppointment(appts, caller, appts[j].id).Ok? <==> MayView(appts[j], caller)
    ensures GetAppointment(appts, caller, appts[j].id).Ok? ==> GetAppointment(appts, caller, appts[j].id).value == appts[j]
  {
    IndexOfDistinct(appts, AppointmentId, j);
  }

  /** (date, time) in ascending order; both are compared as strings. */
  predicate SlotLe(a: Appointment, b: Appointment)
  {
    StrLe(a.date, b.date) && (a.date == b.date ==> StrLe(a.time, b.time))
  }

  /** (date, time) in descending order, as `.sort({ date: -1, time: -1 })`. */
  predicate SlotGe(a: Appointment, b: Appointment)
  {
    SlotLe(b, a)
  }

  lemma SlotOrdersTotal()
    ensures TotalPreorder(SlotLe) && TotalPreorder(SlotGe)
  {
    forall a: Appointment, b: Appointment ensures SlotLe(a, b) || SlotLe(b, a) {
      StrLeTotal(a.date, b.date);
      StrLeTotal(a.time, b.time);
    }
    forall a: Appointment, b: Appointment, c: Appointment | SlotLe(a, b) && SlotLe(b, c)
      ensures SlotLe(a, c)
    {
      StrLeTransitive(a.date, b.date, c.date);
      if a.date == c.date {
        StrLeAntisymmetric(a.date, b.date);
        StrLeTransitive(a.time, b.time, c.time);
      }
    }
  }

  /** `getMyAppointments`: exactly the caller's appointments, latest slot first. */
  function MyAppointments(appts: seq<Appointment>, caller: Caller): (r: seq<Appointment>)
    ensures forall a :: a in r <==> a in appts && a.customer == caller.id
    ensures SortedBy(r, SlotGe)
    ensures forall a :: multiset(r)[a] == if a.customer == caller.id then multiset(appts)[a] else 0
  {
    SlotOrdersTotal();
    FilterMultiplicity(appts, (a: Appointment) => a.customer == caller.id);
    var mine := Filter(appts, (a: Appointment) => a.customer == caller.id);
    SortByMembers(mine, SlotGe);
    SortBy(mine, SlotGe)
  }

  /** `getAllAppointments`: a mechanic sees exactly the appointments assigned
      to them, anyone else sees all; latest slot first. */
  function AllAppointments(appts: seq<Appointment>, caller: Caller): (r: seq<Appointment>)
    ensures caller.role == Mechanic ==> forall a :: a in r <==> a in appts && a.assignedMechanic == Some(caller.id)
    ensures caller.role == Mechanic ==>
              forall a :: multiset(r)[a] == if a.assignedMechanic == Some(caller.id) then multiset(appts)[a] else 0
    ensures caller.role != Mechanic ==> multiset(r) == multiset(appts)
    ensures SortedBy(r, SlotGe)
  {
    SlotOrdersTotal();
    FilterMultiplicity(appts, (a: Appointment) => a.assignedMechanic == Some(caller.id));
    var visible := if caller.role == Mechanic
                   then Filter(appts, (a: Appointment) => a.assignedMechanic == Some(caller.id))
                   else appts;
    SortByMembers(visible, SlotGe);
    SortBy(visible, SlotGe)
  }
}
