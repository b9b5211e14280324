/** The document store the handlers work on, and the handlers that change
    it. Each handler asks the decision function of its controller module
    and, on success, applies the decision to the collections; the store-wide
    invariants (`Store.Valid`) are the rules the controllers and schemas
    keep together: unique identities, no double-booked slot, unique
    registration numbers, item names and emails, one feedback per
    appointment mirrored by its `feedbackSubmitted` flag, and schema-valid
    documents. */
module ServiceStore {
  import opened Common
  import opened Seqs
  import opened Records
  import opened AppointmentModel
  import opened VehicleModel
  import opened ComplaintModel
  import opened OffPeak
  import Appointments
  import Manager
  import Inventory
  import Vehicles
  import Feedbacks
  import Complaints

  // ---------------------------------------------------------------------
  // The invariants, on values

  /** Identities are distinct and below the next fresh identity. */
  ghost predicate Keyed<T>(s: seq<T>, key: T -> Id, bound: nat)
  {
    DistinctKeys(s, key) && KeysBelow(s, key, bound)
  }

  lemma KeyedGrows<T>(s: seq<T>, key: T -> Id, bound: nat, bound': nat)
    requires Keyed(s, key, bound) && bound <= bound'
    ensures Keyed(s, key, bound')
  {
  }

  ghost predicate UsersOk(users: seq<User>, bound: nat)
  {
    Keyed(users, UserId, bound) && Manager.EmailsUnique(users)
  }

  ghost predicate AppointmentsOk(appts: seq<Appointment>, bound: nat)
  {
    && Keyed(appts, AppointmentId, bound)
    && Appointments.SlotsExclusive(appts)
    && AllValidAppointments(appts)
  }

  predicate AllValidAppointments(appts: seq<Appointment>)
  {
    forall i | 0 <= i < |appts| :: ValidAppointment(appts[i])
  }

  ghost predicate VehiclesOk(vehicles: seq<Vehicle>, bound: nat)
  {
    && Keyed(vehicles, VehicleId, bound)
    && NumbersUnique(vehicles)
    && AllValidVehicles(vehicles)
  }

  predicate AllValidVehicles(vehicles: seq<Vehicle>)
  {
    forall i | 0 <= i < |vehicles| :: ValidVehicle(vehicles[i])
  }

  ghost predicate InventoryOk(items: seq<InventoryItem>, bound: nat)
  {
    Keyed(items, ItemId, bound) && Inventory.NamesUnique(items)
  }

  /** Some appointment has identity `id`. */
  predicate HasAppointment(appts: seq<Appointment>, id: Id)
  {
    exists j | 0 <= j < |appts| :: appts[j].id == id
  }

  /** Every feedback refers to a stored appointment, and an appointment's
      `feedbackSubmitted` flag is set exactly when feedback refers to it. */
  ghost predicate FeedbackLinked(feedback: seq<Feedback>, appts: seq<Appointment>)
  {
    && (forall i | 0 <= i < |feedback| :: HasAppointment(appts, feedback[i].appointment))
    && (forall j | 0 <= j < |appts| :: appts[j].feedbackSubmitted <==> Feedbacks.HasFeedback(feedback, appts[j].id))
  }

  ghost predicate FeedbackOk(feedback: seq<Feedback>, appts: seq<Appointment>, bound: nat)
  {
    && Keyed(feedback, FeedbackId, bound)
    && Feedbacks.OnePerAppointment(feedback)
    && Feedbacks.RatingsInRange(feedback)
    && FeedbackLinked(feedback, appts)
  }

  ghost predicate ComplaintsOk(complaints: seq<Complaint>, bound: nat)
  {
    Keyed(complaints, ComplaintId, bound) && AllValidComplaints(complaints)
  }

  predicate AllValidComplaints(complaints: seq<Complaint>)
  {
    forall i | 0 <= i < |complaints| :: ValidComplaint(complaints[i])
  }

  /** All the invariants together, for the collections and the next fresh identity. */
  ghost predicate StoreOk(users: seq<User>, appts: seq<Appointment>, vehicles: seq<Vehicle>,
                          items: seq<InventoryItem>, feedback: seq<Feedback>, complaints: seq<Complaint>, bound: nat)
  {
    && UsersOk(users, bound)
    && AppointmentsOk(appts, bound)
    && VehiclesOk(vehicles, bound)
    && InventoryOk(items, bound)
    && FeedbackOk(feedback, appts, bound)
    && ComplaintsOk(complaints, bound)
  }

  // ---------------------------------------------------------------------
  // Changing one collection: the others keep their invariants

  lemma WithUsers(users: seq<User>, appts: seq<Appointment>, vehicles: seq<Vehicle>, items: seq<InventoryItem>,
                  feedback: seq<Feedback>, complaints: seq<Complaint>, bound: nat, users': seq<User>, bound': nat)
    requires StoreOk(users, appts, vehicles, items, feedback, complaints, bound)
    requires UsersOk(users', bound') && bound <= bound'
    ensures StoreOk(users', appts, vehicles, items, feedback, complaints, bound')
  {
    KeyedGrows(appts, AppointmentId, bound, bound');
    KeyedGrows(vehicles, VehicleId, bound, bound');
    KeyedGrows(items, ItemId, bound, bound');
    KeyedGrows(feedback, FeedbackId, bound, bound');
    KeyedGrows(complaints, ComplaintId, bound, bound');
  }

  lemma WithAppointments(users: seq<User>, appts: seq<Appointment>, vehicles: seq<Vehicle>, items: seq<InventoryItem>,
                         feedback: seq<Feedback>, complaints: seq<Complaint>, bound: nat,
                         appts': seq<Appointment>, feedback': seq<Feedback>, bound': nat)
    requires StoreOk(users, appts, vehicles, items, feedback, complaints, bound)
    requires AppointmentsOk(appts', bound') && FeedbackOk(feedback', appts', bound') && bound <= bound'
    ensures StoreOk(users, appts', vehicles, items, feedback', complaints, bound')
  {
    KeyedGrows(users, UserId, bound, bound');
    KeyedGrows(vehicles, VehicleId, bound, bound');
    KeyedGrows(items, ItemId, bound, bound');
    KeyedGrows(complaints, ComplaintId, bound, bound');
  }

  lemma WithVehicles(users: seq<User>, appts: seq<Appointment>, vehicles: seq<Vehicle>, items: seq<InventoryItem>,
                     feedback: seq<Feedback>, complaints: seq<Complaint>, bound: nat, vehicles': seq<Vehicle>, bound': nat)
    requires StoreOk(users, appts, vehicles, items, feedback, complaints, bound)
    requires VehiclesOk(vehicles', bound') && bound <= bound'
    ensures StoreOk(users, appts, vehicles', items, feedback, complaints, bound')
  {
    KeyedGrows(users, UserId, bound, bound');
    KeyedGrows(appts, AppointmentId, bound, bound');
    KeyedGrows(items, ItemId, bound, bound');
    KeyedGrows(feedback, FeedbackId, bound, bound');
    KeyedGrows(complaints, ComplaintId, bound, bound');
  }

  lemma WithItems(users: seq<User>, appts: seq<Appointment>, vehicles: seq<Vehicle>, items: seq<InventoryItem>,
                  feedback: seq<Feedback>, complaints: seq<Complaint>, bound: nat, items': seq<InventoryItem>, bound': nat)
    requires StoreOk(users, appts, vehicles, items, feedback, complaints, bound)
    requires InventoryOk(items', bound') && bound <= bound'
    ensures StoreOk(users, appts, vehicles, items', feedback, complaints, bound')
  {
    KeyedGrows(users, UserId, bound, bound');
    KeyedGrows(appts, AppointmentId, bound, bound');
    KeyedGrows(vehicles, VehicleId, bound, bound');
    KeyedGrows(feedback, FeedbackId, bound, bound');
    KeyedGrows(complaints, ComplaintId, bound, bound');
  }

  lemma WithComplaints(users: seq<User>, appts: seq<Appointment>, vehicles: seq<Vehicle>, items: seq<InventoryItem>,
                       feedback: seq<Feedback>, complaints: seq<Complaint>, bound: nat, complaints': seq<Complaint>,
                       bound': nat)
    requires StoreOk(users, appts, vehicles, items, feedback, complaints, bound)
    requires ComplaintsOk(complaints', bound') && bound <= bound'
    ensures StoreOk(users, appts, vehicles, items, feedback, complaints', bound')
  {
    KeyedGrows(users, UserId, bound, bound');
    KeyedGrows(appts, AppointmentId, bound, bound');
    KeyedGrows(vehicles, VehicleId, bound, bound');
    KeyedGrows(items, ItemId, bound, bound');
    KeyedGrows(feedback, FeedbackId, bound, bound');
  }

  // ---------------------------------------------------------------------
  // Preservation, on values

  /** A new booking carries a fresh identity and no feedback. */
  lemma BookingKeepsAppointments(appts: seq<Appointment>, feedback: seq<Feedback>, vehicles: seq<Vehicle>,
                                 caller: Caller, req: Appointments.BookingRequest, settings: SettingsLookup,
                                 bound: nat)
    requires AppointmentsOk(appts, bound) && FeedbackOk(feedback, appts, bound)
    requires Appointments.Book(appts, vehicles, caller, req, settings, bound).Ok?
    ensures AppointmentsOk(appts + [Appointments.Book(appts, vehicles, caller, req, settings, bound).value], bound + 1)
    ensures FeedbackOk(feedback, appts + [Appointments.Book(appts, vehicles, caller, req, settings, bound).value], bound + 1)
  {
    var a := Appointments.Book(appts, vehicles, caller, req, settings, bound).value;
    var s := appts + [a];
    Appointments.BookKeepsSlotsExclusive(appts, vehicles, caller, req, settings, bound);
    AppendFresh(appts, AppointmentId, bound, a);
    forall i | 0 <= i < |feedback| ensures HasAppointment(s, feedback[i].appointment) {
      var j :| 0 <= j < |appts| && appts[j].id == feedback[i].appointment;
      assert s[j] == appts[j];
    }
    assert !Feedbacks.HasFeedback(feedback, bound) by {
      forall i | 0 <= i < |feedback| ensures feedback[i].appointment != bound {
        var j :| 0 <= j < |appts| && appts[j].id == feedback[i].appointment;
      }
    }
    forall j | 0 <= j < |s| ensures s[j].feedbackSubmitted <==> Feedbacks.HasFeedback(feedback, s[j].id) {
      if j < |appts| { assert s[j] == appts[j]; }
    }
    KeyedGrows(feedback, FeedbackId, bound, bound + 1);
  }

  /** Replacing an appointment by one with the same identity, slot-safe
      status and flag leaves the collection invariants intact. */
  lemma ReplaceKeepsAppointments(appts: seq<Appointment>, feedback: seq<Feedback>, k: nat, a: Appointment, bound: nat)
    requires AppointmentsOk(appts, bound) && FeedbackOk(feedback, appts, bound) && k < |appts|
    requires a.id == appts[k].id && a.feedbackSubmitted == appts[k].feedbackSubmitted
    requires a.serviceType == appts[k].serviceType && a.date == appts[k].date && a.time == appts[k].time
    requires a.partsUsed == appts[k].partsUsed && a.laborItems == appts[k].laborItems
    requires Appointments.SlotsExclusive(appts[k := a])
    ensures AppointmentsOk(appts[k := a], bound) && FeedbackOk(feedback, appts[k := a], bound)
  {
    var s := appts[k := a];
    ReplaceSameKey(appts, AppointmentId, bound, k, a);
    forall i | 0 <= i < |feedback| ensures HasAppointment(s, feedback[i].appointment) {
      var j :| 0 <= j < |appts| && appts[j].id == feedback[i].appointment;
      assert s[j].id == appts[j].id;
    }
    assert forall j | 0 <= j < |s| :: s[j].id == appts[j].id && s[j].feedbackSubmitted == appts[j].feedbackSubmitted;
    assert forall j | 0 <= j < |s| :: ValidAppointment(s[j]) by {
      forall j | 0 <= j < |s| ensures ValidAppointment(s[j]) {
        assert ValidAppointment(appts[j]);
      }
    }
  }

  /** Setting an appointment's feedback flag changes neither slots nor validity. */
  lemma MarkKeepsAppointments(appts: seq<Appointment>, k: nat, bound: nat)
    requires AppointmentsOk(appts, bound) && k < |appts|
    ensures AppointmentsOk(appts[k := Feedbacks.MarkFeedbackSubmitted(appts[k])], bound + 1)
  {
    var m := Feedbacks.MarkFeedbackSubmitted(appts[k]);
    var s := appts[k := m];
    ReplaceSameKey(appts, AppointmentId, bound, k, m);
    KeyedGrows(s, AppointmentId, bound, bound + 1);
    assert forall j | 0 <= j < |s| :: s[j].date == appts[j].date && s[j].time == appts[j].time && s[j].status == appts[j].status;
    assert Appointments.SlotsExclusive(s) by {
      forall i, j | 0 <= i < j < |s|
        ensures !Appointments.Blocks(s[j], s[i].date, s[i].time) || s[i].status == Cancelled
      {
        assert !Appointments.Blocks(appts[j], appts[i].date, appts[i].time) || appts[i].status == Cancelled;
      }
    }
    assert AllValidAppointments(s) by {
      forall j | 0 <= j < |s| ensures ValidAppointment(s[j]) {
        assert ValidAppointment(appts[j]);
      }
    }
  }

  /** Feedback for appointment `k` together with its flag keeps the links
      between the two collections. */
  lemma FeedbackKeepsLinked(appts: seq<Appointment>, feedback: seq<Feedback>, k: nat, f: Feedback)
    requires FeedbackLinked(feedback, appts) && DistinctKeys(appts, AppointmentId)
    requires k < |appts| && appts[k].id == f.appointment
    ensures FeedbackLinked(feedback + [f], appts[k := Feedbacks.MarkFeedbackSubmitted(appts[k])])
  {
    var fs := feedback + [f];
    var s := appts[k := Feedbacks.MarkFeedbackSubmitted(appts[k])];
    assert forall j | 0 <= j < |s| :: s[j].id == appts[j].id;
    forall i | 0 <= i < |fs| ensures HasAppointment(s, fs[i].appointment) {
      if i < |feedback| {
        var j :| 0 <= j < |appts| && appts[j].id == feedback[i].appointment;
        assert s[j].id == fs[i].appointment;
      } else {
        assert s[k].id == fs[i].appointment;
      }
    }
    forall j | 0 <= j < |s| ensures s[j].feedbackSubmitted <==> Feedbacks.HasFeedback(fs, s[j].id) {
      assert fs[|feedback|] == f;
      if j != k {
        assert AppointmentId(appts[j]) != AppointmentId(appts[k]);
        if Feedbacks.HasFeedback(fs, s[j].id) {
          var i :| 0 <= i < |fs| && fs[i].appointment == s[j].id;
          assert i < |feedback| && feedback[i] == fs[i];
        }
        if Feedbacks.HasFeedback(feedback, appts[j].id) {
          var i :| 0 <= i < |feedback| && feedback[i].appointment == appts[j].id;
          assert fs[i] == feedback[i];
        }
      }
    }
  }

  /** Accepting feedback: the new entry and the flag of its appointment. */
  lemma FeedbackKeepsLinks(appts: seq<Appointment>, feedback: seq<Feedback>, caller: Caller,
                           req: Feedbacks.FeedbackRequest, k: nat, bound: nat)
    requires AppointmentsOk(appts, bound) && FeedbackOk(feedback, appts, bound)
    requires Feedbacks.SubmitFeedback(appts, feedback, caller, req, bound).Ok?
    requires k < |appts| && appts[k].id == Feedbacks.SubmitFeedback(appts, feedback, caller, req, bound).value.appointment
    ensures AppointmentsOk(appts[k := Feedbacks.MarkFeedbackSubmitted(appts[k])], bound + 1)
    ensures FeedbackOk(feedback + [Feedbacks.SubmitFeedback(appts, feedback, caller, req, bound).value],
                       appts[k := Feedbacks.MarkFeedbackSubmitted(appts[k])], bound + 1)
  {
    var f := Feedbacks.SubmitFeedback(appts, feedback, caller, req, bound).value;
    Feedbacks.SubmitKeepsFeedbackRules(appts, feedback, caller, req, bound);
    AppendFresh(feedback, FeedbackId, bound, f);
    MarkKeepsAppointments(appts, k, bound);
    FeedbackKeepsLinked(appts, feedback, k, f);
  }

  /** Removing a document keeps every pairwise-distinct field distinct. */
  lemma RemoveKeepsUsers(users: seq<User>, k: nat, bound: nat)
    requires UsersOk(users, bound) && k < |users|
    ensures UsersOk(RemoveAt(users, k), bound)
  {
    var r := RemoveAt(users, k);
    RemoveKeepsKeys(users, UserId, bound, k);
    forall i, j | 0 <= i < j < |r| ensures r[i].email != r[j].email {
      var i' := if i < k then i else i + 1;
      var j' := if j < k then j else j + 1;
      assert r[i] == users[i'] && r[j] == users[j'];
    }
  }

  lemma RemoveKeepsVehicles(vehicles: seq<Vehicle>, k: nat, bound: nat)
    requires VehiclesOk(vehicles, bound) && k < |vehicles|
    ensures VehiclesOk(RemoveAt(vehicles, k), bound)
  {
    var r := RemoveAt(vehicles, k);
    RemoveKeepsKeys(vehicles, VehicleId, bound, k);
    forall i, j | 0 <= i < j < |r| ensures r[i].vehicleNo != r[j].vehicleNo {
      var i' := if i < k then i else i + 1;
      var j' := if j < k then j else j + 1;
      assert r[i] == vehicles[i'] && r[j] == vehicles[j'];
    }
    forall i | 0 <= i < |r| ensures ValidVehicle(r[i]) {
      assert r[i] == vehicles[if i < k then i else i + 1];
    }
  }

  lemma RemoveKeepsItems(items: seq<InventoryItem>, k: nat, bound: nat)
    requires InventoryOk(items, bound) && k < |items|
    ensures InventoryOk(RemoveAt(items, k), bound)
  {
    var r := RemoveAt(items, k);
    RemoveKeepsKeys(items, ItemId, bound, k);
    forall i, j | 0 <= i < j < |r| ensures r[i].name != r[j].name {
      var i' := if i < k then i else i + 1;
      var j' := if j < k then j else j + 1;
      assert r[i] == items[i'] && r[j] == items[j'];
    }
  }

  lemma RemoveKeepsComplaints(complaints: seq<Complaint>, k: nat, bound: nat)
    requires ComplaintsOk(complaints, bound) && k < |complaints|
    ensures ComplaintsOk(RemoveAt(complaints, k), bound)
  {
    var r := RemoveAt(complaints, k);
    RemoveKeepsKeys(complaints, ComplaintId, bound, k);
    forall i | 0 <= i < |r| ensures ValidComplaint(r[i]) {
      assert r[i] == complaints[if i < k then i else i + 1];
    }
  }

  /** A registered vehicle keeps the vehicle invariants. */
  lemma AddKeepsVehicles(vehicles: seq<Vehicle>, caller: Caller, req: Vehicles.VehicleRequest, bound: nat)
    requires VehiclesOk(vehicles, bound)
    requires Vehicles.AddVehicle(vehicles, caller, req, bound).Ok?
    ensures VehiclesOk(vehicles + [Vehicles.AddVehicle(vehicles, caller, req, bound).value], bound + 1)
  {
    var v := Vehicles.AddVehicle(vehicles, caller, req, bound).value;
    Vehicles.AddKeepsNumbersUnique(vehicles, caller, req, bound);
    AppendFresh(vehicles, VehicleId, bound, v);
    AppendValidVehicle(vehicles, v);
  }

  /** An updated vehicle keeps the vehicle invariants. */
  lemma UpdateKeepsVehicles(vehicles: seq<Vehicle>, caller: Caller, k: nat, req: Vehicles.VehicleRequest, bound: nat)
    requires VehiclesOk(vehicles, bound) && k < |vehicles|
    requires Vehicles.UpdateVehicle(vehicles, caller, vehicles[k].id, req).Ok?
    ensures VehiclesOk(vehicles[k := Vehicles.UpdateVehicle(vehicles, caller, vehicles[k].id, req).value], bound)
  {
    var v := Vehicles.UpdateVehicle(vehicles, caller, vehicles[k].id, req).value;
    Vehicles.UpdateKeepsNumbersUnique(vehicles, caller, k, req, true);
    ReplaceSameKey(vehicles, VehicleId, bound, k, v);
    ReplaceValidVehicle(vehicles, k, v);
  }

  lemma AppendValidVehicle(vehicles: seq<Vehicle>, v: Vehicle)
    requires AllValidVehicles(vehicles) && ValidVehicle(v)
    ensures AllValidVehicles(vehicles + [v])
  {
    var s := vehicles + [v];
    forall i | 0 <= i < |s| ensures ValidVehicle(s[i]) {
      if i < |vehicles| { assert s[i] == vehicles[i]; }
    }
  }

  lemma ReplaceValidVehicle(vehicles: seq<Vehicle>, k: nat, v: Vehicle)
    requires AllValidVehicles(vehicles) && k < |vehicles| && ValidVehicle(v)
    ensures AllValidVehicles(vehicles[k := v])
  {
    var s := vehicles[k := v];
    forall i | 0 <= i < |s| ensures ValidVehicle(s[i]) {
      if i != k { assert s[i] == vehicles[i]; }
    }
  }

  /** A new Mechanic account keeps identities and emails unique. */
  lemma CreateKeepsUsers(users: seq<User>, req: Manager.MechanicRequest, bound: nat)
    requires UsersOk(users, bound) && Manager.CreateMechanic(users, req, bound).Ok?
    ensures UsersOk(users + [Manager.CreateMechanic(users, req, bound).value], bound + 1)
  {
    Manager.CreateMechanicKeepsEmailsUnique(users, req, bound);
    AppendFresh(users, UserId, bound, Manager.CreateMechanic(users, req, bound).value);
  }

  /** A created item keeps identities and names unique. */
  lemma CreateKeepsItems(items: seq<InventoryItem>, req: Inventory.ItemRequest, bound: nat)
    requires InventoryOk(items, bound) && Inventory.CreateItem(items, req, bound).Ok?
    ensures InventoryOk(items + [Inventory.CreateItem(items, req, bound).value], bound + 1)
  {
    Inventory.CreateKeepsNamesUnique(items, req, bound);
    AppendFresh(items, ItemId, bound, Inventory.CreateItem(items, req, bound).value);
  }

  /** An updated item keeps identities and names unique. */
  lemma UpdateKeepsItems(items: seq<InventoryItem>, k: nat, req: Inventory.ItemRequest, bound: nat)
    requires InventoryOk(items, bound) && k < |items| && Inventory.UpdateItem(items, items[k].id, req).Ok?
    ensures InventoryOk(items[k := Inventory.UpdateItem(items, items[k].id, req).value], bound)
  {
    Inventory.UpdateKeepsNamesUnique(items, k, req);
    IndexOfDistinct(items, ItemId, k);
    ReplaceSameKey(items, ItemId, bound, k, Inventory.UpdateItem(items, items[k].id, req).value);
  }

  /** A new ticket keeps identities unique and tickets schema-valid. */
  lemma SubmitKeepsComplaints(complaints: seq<Complaint>, caller: Caller, req: Complaints.ComplaintRequest, bound: nat)
    requires ComplaintsOk(complaints, bound) && Complaints.SubmitComplaint(caller, req, bound).Ok?
    ensures ComplaintsOk(complaints + [Complaints.SubmitComplaint(caller, req, bound).value], bound + 1)
  {
    var c := Complaints.SubmitComplaint(caller, req, bound).value;
    AppendFresh(complaints, ComplaintId, bound, c);
    var s := complaints + [c];
    forall i | 0 <= i < |s| ensures ValidComplaint(s[i]) {
      if i < |complaints| { assert s[i] == complaints[i]; }
    }
  }

  /** An updated ticket keeps its identity and stays schema-valid. */
  lemma ReplaceKeepsComplaints(complaints: seq<Complaint>, k: nat, c: Complaint, bound: nat)
    requires ComplaintsOk(complaints, bound) && k < |complaints|
    requires c.id == complaints[k].id && ValidComplaint(c)
    ensures ComplaintsOk(complaints[k := c], bound)
  {
    ReplaceSameKey(complaints, ComplaintId, bound, k, c);
    var s := complaints[k := c];
    forall i | 0 <= i < |s| ensures ValidComplaint(s[i]) {
      if i != k { assert s[i] == complaints[i]; }
    }
  }

  /** A stock receipt changes only the quantity, so names stay unique. */
  lemma ReceiptKeepsItems(items: seq<InventoryItem>, k: nat, item: InventoryItem, bound: nat)
    requires InventoryOk(items, bound) && k < |items|
    requires item.id == items[k].id && item.name == items[k].name
    ensures InventoryOk(items[k := item], bound)
  {
    ReplaceSameKey(items, ItemId, bound, k, item);
    var r := items[k := item];
    assert forall i | 0 <= i < |r| :: r[i].name == items[i].name;
  }

  // ---------------------------------------------------------------------
  // The vehicle handlers on the collections' values (the store's methods
  // apply these; the string reasoning of the schema setters stays out of
  // the proofs about the object)

  method AddVehicleTo(users: seq<User>, appts: seq<Appointment>, vehicles: seq<Vehicle>, items: seq<InventoryItem>,
                      feedback: seq<Feedback>, complaints: seq<Complaint>, bound: nat,
                      caller: Caller, req: Vehicles.VehicleRequest)
    returns (r: Result<Vehicle>, vehicles': seq<Vehicle>, bound': nat)
    requires StoreOk(users, appts, vehicles, items, feedback, complaints, bound)
    ensures StoreOk(users, appts, vehicles', items, feedback, complaints, bound')
    ensures r == Vehicles.AddVehicle(vehicles, caller, req, bound)
    ensures r.Ok? ==> vehicles' == vehicles + [r.value] && bound' == bound + 1
    ensures r.Err? ==> vehicles' == vehicles && bound' == bound
  {
    r := Vehicles.AddVehicle(vehicles, caller, req, bound);
    vehicles', bound' := vehicles, bound;
    if r.Ok? {
      AddKeepsVehicles(vehicles, caller, req, bound);
      WithVehicles(users, appts, vehicles, items, feedback, complaints, bound, vehicles + [r.value], bound + 1);
      vehicles', bound' := vehicles + [r.value], bound + 1;
    }
  }

  method UpdateVehicleIn(users: seq<User>, appts: seq<Appointment>, vehicles: seq<Vehicle>, items: seq<InventoryItem>,
                         feedback: seq<Feedback>, complaints: seq<Complaint>, bound: nat,
                         caller: Caller, id: Id, req: Vehicles.VehicleRequest)
    returns (r: Result<Vehicle>, vehicles': seq<Vehicle>)
    requires StoreOk(users, appts, vehicles, items, feedback, complaints, bound)
    ensures StoreOk(users, appts, vehicles', items, feedback, complaints, bound)
    ensures r == Vehicles.UpdateVehicle(vehicles, caller, id, req)
    ensures r.Ok? ==> IndexOf(vehicles, VehicleId, id).Some?
    ensures r.Ok? ==> vehicles' == vehicles[IndexOf(vehicles, VehicleId, id).value := r.value]
    ensures r.Err? ==> vehicles' == vehicles
  {
    r := Vehicles.UpdateVehicle(vehicles, caller, id, req);
    vehicles' := vehicles;
    if r.Ok? {
      var k := IndexOf(vehicles, VehicleId, id).value;
      UpdateKeepsVehicles(vehicles, caller, k, req, bound);
      WithVehicles(users, appts, vehicles, items, feedback, complaints, bound, vehicles[k := r.value], bound);
      vehicles' := vehicles[k := r.value];
    }
  }

  method SubmitComplaintTo(users: seq<User>, appts: seq<Appointment>, vehicles: seq<Vehicle>, items: seq<InventoryItem>,
                           feedback: seq<Feedback>, complaints: seq<Complaint>, bound: nat,
                           caller: Caller, req: Complaints.ComplaintRequest)
    returns (r: Result<Complaint>, complaints': seq<Complaint>, bound': nat)
    requires StoreOk(users, appts, vehicles, items, feedback, complaints, bound)
    ensures StoreOk(users, appts, vehicles, items, feedback, complaints', bound')
    ensures r == Complaints.SubmitComplaint(caller, req, bound)
    ensures r.Ok? ==> complaints' == complaints + [r.value] && bound' == bound + 1
    ensures r.Err? ==> complaints' == complaints && bound' == bound
  {
    r := Complaints.SubmitComplaint(caller, req, bound);
    complaints', bound' := complaints, bound;
    if r.Ok? {
      SubmitKeepsComplaints(complaints, caller, req, bound);
      WithComplaints(users, appts, vehicles, items, feedback, complaints, bound, complaints + [r.value], bound + 1);
      complaints', bound' := complaints + [r.value], bound + 1;
    }
  }

  // ---------------------------------------------------------------------
  // The store

  class Store {
    var users: seq<User>
    var appointments: seq<Appointment>
    var vehicles: seq<Vehicle>
    var inventory: seq<InventoryItem>
    var feedback: seq<Feedback>
    var complaints: seq<Complaint>
    /** The next fresh identity: every stored identity is below it. */
    var nextId: nat

    ghost predicate Valid()
      reads this
    {
      StoreOk(users, appointments, vehicles, inventory, feedback, complaints, nextId)
    }

    /** An empty store. */
    constructor ()
      ensures Valid()
      ensures users == [] && appointments == [] && vehicles == [] && inventory == []
      ensures feedback == [] && complaints == [] && nextId == 0
    {
      users := [];
      appointments := [];
      vehicles := [];
      inventory := [];
      feedback := [];
      complaints := [];
      nextId := 0;
    }

    // -------------------------------------------------------------------
    // Appointments

    /** `createAppointment`: on success exactly one appointment is added,
        under a fresh identity; on failure nothing changes. `settings` is
        what the settings read produced. */
    method CreateAppointment(caller: Caller, req: Appointments.BookingRequest, settings: SettingsLookup)
      returns (r: Result<Appointment>)
      requires Valid()
      modifies this
      ensures Valid()
      ensures r == Appointments.Book(old(appointments), old(vehicles), caller, req, settings, old(nextId))
      ensures r.Ok? ==> appointments == old(appointments) + [r.value] && nextId == old(nextId) + 1
      ensures r.Err? ==> appointments == old(appointments) && nextId == old(nextId)
      ensures users == old(users) && vehicles == old(vehicles) && inventory == old(inventory)
      ensures feedback == old(feedback) && complaints == old(complaints)
    {
      r := Appointments.Book(appointments, vehicles, caller, req, settings, nextId);
      if r.Ok? {
        BookingKeepsAppointments(appointments, feedback, vehicles, caller, req, settings, nextId);
        WithAppointments(users, appointments, vehicles, inventory, feedback, complaints, nextId, appointments + [r.value], feedback, nextId + 1);
        appointments := appointments + [r.value];
        nextId := nextId + 1;
      }
    }

    /** `cancelAppointment`: on success only the status of that appointment
        changes, to Cancelled, and its slot is free again. */
    method CancelAppointment(caller: Caller, id: Id) returns (r: Result<Appointment>)
      requires Valid()
      modifies this
      ensures Valid()
      ensures r == Appointments.Cancel(Lookup(old(appointments), AppointmentId, id), caller)
      ensures r.Ok? ==> IndexOf(old(appointments), AppointmentId, id).Some?
      ensures r.Ok? ==> appointments == old(appointments)[IndexOf(old(appointments), AppointmentId, id).value := r.value]
      ensures r.Ok? ==> !Appointments.SlotTaken(appointments, r.value.date, r.value.time)
      ensures r.Err? ==> appointments == old(appointments)
      ensures users == old(users) && vehicles == old(vehicles) && inventory == old(inventory)
      ensures feedback == old(feedback) && complaints == old(complaints) && nextId == old(nextId)
    {
      r := Appointments.Cancel(Lookup(appointments, AppointmentId, id), caller);
      if r.Ok? {
        var k := IndexOf(appointments, AppointmentId, id).value;
        Appointments.CancelFreesSlot(appointments, k, caller);
        ReplaceKeepsAppointments(appointments, feedback, k, r.value, nextId);
        WithAppointments(users, appointments, vehicles, inventory, feedback, complaints, nextId, appointments[k := r.value], feedback, nextId);
        appointments := appointments[k := r.value];
      }
    }

    /** `assignJobToMechanic`: on success only `assignedMechanic` of that
        appointment changes. */
    method AssignJobToMechanic(appointmentId: Id, mechanicId: Id) returns (r: Result<Appointment>)
      requires Valid()
      modifies this
      ensures Valid()
      ensures r == Manager.Assign(Lookup(old(appointments), AppointmentId, appointmentId),
                                  Lookup(old(users), UserId, mechanicId), mechanicId)
      ensures r.Ok? ==> IndexOf(old(appointments), AppointmentId, appointmentId).Some?
      ensures r.Ok? ==> appointments == old(appointments)[IndexOf(old(appointments), AppointmentId, appointmentId).value := r.value]
      ensures r.Err? ==> appointments == old(appointments)
      ensures users == old(users) && vehicles == old(vehicles) && inventory == old(inventory)
      ensures feedback == old(feedback) && complaints == old(complaints) && nextId == old(nextId)
    {
      var mechanic := Lookup(users, UserId, mechanicId);
      r := Manager.Assign(Lookup(appointments, AppointmentId, appointmentId), mechanic, mechanicId);
      if r.Ok? {
        var k := IndexOf(appointments, AppointmentId, appointmentId).value;
        Manager.AssignKeepsSlotsExclusive(appointments, k, mechanic, mechanicId);
        ReplaceKeepsAppointments(appointments, feedback, k, r.value, nextId);
        WithAppointments(users, appointments, vehicles, inventory, feedback, complaints, nextId, appointments[k := r.value], feedback, nextId);
        appointments := appointments[k := r.value];
      }
    }

    // -------------------------------------------------------------------
    // Mechanic accounts and stock

    /** `createMechanic`: on success exactly one Mechanic account is added. */
    method CreateMechanic(req: Manager.MechanicRequest) returns (r: Result<User>)
      requires Valid()
      modifies this
      ensures Valid()
      ensures r == Manager.CreateMechanic(old(users), req, old(nextId))
      ensures r.Ok? ==> users == old(users) + [r.value] && r.value.role == Mechanic && nextId == old(nextId) + 1
      ensures r.Err? ==> users == old(users) && nextId == old(nextId)
      ensures appointments == old(appointments) && vehicles == old(vehicles) && inventory == old(inventory)
      ensures feedback == old(feedback) && complaints == old(complaints)
    {
      r := Manager.CreateMechanic(users, req, nextId);
      if r.Ok? {
        CreateKeepsUsers(users, req, nextId);
        WithUsers(users, appointments, vehicles, inventory, feedback, complaints, nextId, users + [r.value], nextId + 1);
        users := users + [r.value];
        nextId := nextId + 1;
      }
    }

    /** `deleteMechanic`: only an existing Mechanic account is removed, and
        exactly that one. */
    method DeleteMechanic(id: Id) returns (r: Result<User>)
      requires Valid()
      modifies this
      ensures Valid()
      ensures r == Manager.DeleteMechanic(Lookup(old(users), UserId, id))
      ensures r.Ok? ==> IndexOf(old(users), UserId, id).Some?
      ensures r.Ok? ==> users == RemoveAt(old(users), IndexOf(old(users), UserId, id).value)
      ensures r.Ok? ==> |users| == |old(users)| - 1 && forall j | 0 <= j < |users| :: users[j].id != id
      ensures r.Err? ==> users == old(users)
      ensures appointments == old(appointments) && vehicles == old(vehicles) && inventory == old(inventory)
      ensures feedback == old(feedback) && complaints == old(complaints) && nextId == old(nextId)
    {
      r := Manager.DeleteMechanic(Lookup(users, UserId, id));
      if r.Ok? {
        var k := IndexOf(users, UserId, id).value;
        RemoveKeepsUsers(users, k, nextId);
        WithUsers(users, appointments, vehicles, inventory, feedback, complaints, nextId, RemoveAt(users, k), nextId);
        RemoveKeepsKeys(users, UserId, nextId, k);
        users := RemoveAt(users, k);
      }
    }

    /** `receiveInventoryStock`: on success only the quantity of that item
        changes, by exactly the quantity received. */
    method ReceiveInventoryStock(id: Id, quantityReceived: Option<int>) returns (r: Result<InventoryItem>)
      requires Valid()
      modifies this
      ensures Valid()
      ensures r == Manager.ReceiveStock(Lookup(old(inventory), ItemId, id), quantityReceived)
      ensures r.Ok? ==> IndexOf(old(inventory), ItemId, id).Some?
      ensures r.Ok? ==> var k := IndexOf(old(inventory), ItemId, id).value;
                        && inventory == old(inventory)[k := r.value]
                        && inventory[k].quantity == old(inventory)[k].quantity + quantityReceived.value
      ensures r.Err? ==> inventory == old(inventory)
      ensures users == old(users) && appointments == old(appointments) && vehicles == old(vehicles)
      ensures feedback == old(feedback) && complaints == old(complaints) && nextId == old(nextId)
    {
      r := Manager.ReceiveStock(Lookup(inventory, ItemId, id), quantityReceived);
      if r.Ok? {
        var k := IndexOf(inventory, ItemId, id).value;
        ReceiptKeepsItems(inventory, k, r.value, nextId);
        WithItems(users, appointments, vehicles, inventory, feedback, complaints, nextId, inventory[k := r.value], nextId);
        inventory := inventory[k := r.value];
      }
    }

    /** `orderInventoryItem`: validation and the supplier mail only; the
        method modifies nothing, so the stock is never changed. */
    method OrderInventoryItem(id: Id, orderQuantity: Option<int>, supplierEmail: Option<string>, emailSent: bool)
      returns (r: Result<InventoryItem>)
      requires Valid()
      ensures r == Manager.OrderInventoryItem(Lookup(inventory, ItemId, id), orderQuantity, supplierEmail, emailSent)
      ensures r.Ok? ==> r.value in inventory && r.value.id == id
    {
      r := Manager.OrderInventoryItem(Lookup(inventory, ItemId, id), orderQuantity, supplierEmail, emailSent);
    }

    // -------------------------------------------------------------------
    // Inventory

    /** `createInventoryItem`: on success exactly one item is added, under a
        fresh identity and a new name. */
    method CreateInventoryItem(req: Inventory.ItemRequest) returns (r: Result<InventoryItem>)
      requires Valid()
      modifies this
      ensures Valid()
      ensures r == Inventory.CreateItem(old(inventory), req, old(nextId))
      ensures r.Ok? ==> inventory == old(inventory) + [r.value] && nextId == old(nextId) + 1
      ensures r.Err? ==> inventory == old(inventory) && nextId == old(nextId)
      ensures users == old(users) && appointments == old(appointments) && vehicles == old(vehicles)
      ensures feedback == old(feedback) && complaints == old(complaints)
    {
      r := Inventory.CreateItem(inventory, req, nextId);
      if r.Ok? {
        CreateKeepsItems(inventory, req, nextId);
        WithItems(users, appointments, vehicles, inventory, feedback, complaints, nextId, inventory + [r.value], nextId + 1);
        inventory := inventory + [r.value];
        nextId := nextId + 1;
      }
    }

    /** `updateInventoryItem`: on success the item is replaced by its merge
        with the request, in place. */
    method UpdateInventoryItem(id: Id, req: Inventory.ItemRequest) returns (r: Result<InventoryItem>)
      requires Valid()
      modifies this
      ensures Valid()
      ensures r == Inventory.UpdateItem(old(inventory), id, req)
      ensures r.Ok? ==> IndexOf(old(inventory), ItemId, id).Some?
      ensures r.Ok? ==> inventory == old(inventory)[IndexOf(old(inventory), ItemId, id).value := r.value]
      ensures r.Err? ==> inventory == old(inventory)
      ensures users == old(users) && appointments == old(appointments) && vehicles == old(vehicles)
      ensures feedback == old(feedback) && complaints == old(complaints) && nextId == old(nextId)
    {
      r := Inventory.UpdateItem(inventory, id, req);
      if r.Ok? {
        var k := IndexOf(inventory, ItemId, id).value;
        UpdateKeepsItems(inventory, k, req, nextId);
        WithItems(users, appointments, vehicles, inventory, feedback, complaints, nextId, inventory[k := r.value], nextId);
        inventory := inventory[k := r.value];
      }
    }

    /** `deleteInventoryItem`: exactly the item with that id is removed. */
    method DeleteInventoryItem(id: Id) returns (r: Result<InventoryItem>)
      requires Valid()
      modifies this
      ensures Valid()
      ensures r == Inventory.DeleteItem(old(inventory), id)
      ensures r.Ok? ==> IndexOf(old(inventory), ItemId, id).Some?
      ensures r.Ok? ==> inventory == RemoveAt(old(inventory), IndexOf(old(inventory), ItemId, id).value)
      ensures r.Ok? ==> |inventory| == |old(inventory)| - 1 && forall j | 0 <= j < |inventory| :: inventory[j].id != id
      ensures r.Err? ==> inventory == old(inventory)
      ensures users == old(users) && appointments == old(appointments) && vehicles == old(vehicles)
      ensures feedback == old(feedback) && complaints == old(complaints) && nextId == old(nextId)
    {
      r := Inventory.DeleteItem(inventory, id);
      if r.Ok? {
        var k := IndexOf(inventory, ItemId, id).value;
        RemoveKeepsItems(inventory, k, nextId);
        WithItems(users, appointments, vehicles, inventory, feedback, complaints, nextId, RemoveAt(inventory, k), nextId);
        RemoveKeepsKeys(inventory, ItemId, nextId, k);
        inventory := RemoveAt(inventory, k);
      }
    }

    /** `sendOrder`: validation and the SMS only; the stock is never changed. */
    method SendOrder(id: Id, orderQuantity: Option<int>, phoneNumber: Option<string>, smsSent: bool)
      returns (r: Result<InventoryItem>)
      requires Valid()
      ensures r == Inventory.SendOrder(Lookup(inventory, ItemId, id), orderQuantity, phoneNumber, smsSent)
      ensures r.Ok? ==> r.value in inventory && r.value.id == id
    {
      r := Inventory.SendOrder(Lookup(inventory, ItemId, id), orderQuantity, phoneNumber, smsSent);
    }

    // -------------------------------------------------------------------
    // Vehicles

    /** `addVehicle`: on success exactly one vehicle is added, owned by the
        caller, under a fresh identity and a new registration number. */
    method AddVehicle(caller: Caller, req: Vehicles.VehicleRequest) returns (r: Result<Vehicle>)
      requires Valid()
      modifies this
      ensures Valid()
      ensures r == Vehicles.AddVehicle(old(vehicles), caller, req, old(nextId))
      ensures r.Ok? ==> vehicles == old(vehicles) + [r.value] && nextId == old(nextId) + 1
      ensures r.Err? ==> vehicles == old(vehicles) && nextId == old(nextId)
      ensures users == old(users) && appointments == old(appointments) && inventory == old(inventory)
      ensures feedback == old(feedback) && complaints == old(complaints)
    {
      r, vehicles, nextId := AddVehicleTo(users, appointments, vehicles, inventory, feedback, complaints, nextId, caller, req);
    }

    /** `updateVehicle`, with the corrected duplicate test: on success the
        owner's vehicle is replaced by its merge, in place. */
    method UpdateVehicle(caller: Caller, id: Id, req: Vehicles.VehicleRequest) returns (r: Result<Vehicle>)
      requires Valid()
      modifies this
      ensures Valid()
      ensures r == Vehicles.UpdateVehicle(old(vehicles), caller, id, req)
      ensures r.Ok? ==> IndexOf(old(vehicles), VehicleId, id).Some?
      ensures r.Ok? ==> vehicles == old(vehicles)[IndexOf(old(vehicles), VehicleId, id).value := r.value]
      ensures r.Err? ==> vehicles == old(vehicles)
      ensures users == old(users) && appointments == old(appointments) && inventory == old(inventory)
      ensures feedback == old(feedback) && complaints == old(complaints) && nextId == old(nextId)
    {
      r, vehicles := UpdateVehicleIn(users, appointments, vehicles, inventory, feedback, complaints, nextId, caller, id, req);
    }

    /** `deleteVehicle`: only the owner's vehicle, and exactly that one, is removed. */
    method DeleteVehicle(caller: Caller, id: Id) returns (r: Result<Vehicle>)
      requires Valid()
      modifies this
      ensures Valid()
      ensures r == Vehicles.FindOwned(old(vehicles), caller, id)
      ensures r.Ok? ==> IndexOf(old(vehicles), VehicleId, id).Some?
      ensures r.Ok? ==> vehicles == RemoveAt(old(vehicles), IndexOf(old(vehicles), VehicleId, id).value)
      ensures r.Ok? ==> |vehicles| == |old(vehicles)| - 1 && forall j | 0 <= j < |vehicles| :: vehicles[j].id != id
      ensures r.Err? ==> vehicles == old(vehicles)
      ensures users == old(users) && appointments == old(appointments) && inventory == old(inventory)
      ensures feedback == old(feedback) && complaints == old(complaints) && nextId == old(nextId)
    {
      r := Vehicles.FindOwned(vehicles, caller, id);
      if r.Ok? {
        var k := IndexOf(vehicles, VehicleId, id).value;
        RemoveKeepsVehicles(vehicles, k, nextId);
        WithVehicles(users, appointments, vehicles, inventory, feedback, complaints, nextId, RemoveAt(vehicles, k), nextId);
        RemoveKeepsKeys(vehicles, VehicleId, nextId, k);
        vehicles := RemoveAt(vehicles, k);
      }
    }

    // -------------------------------------------------------------------
    // Feedback

    /** `submitFeedback`: on success exactly one feedback is added and the
        appointment's `feedbackSubmitted` flag, and nothing else of it, is set. */
    method SubmitFeedback(caller: Caller, req: Feedbacks.FeedbackRequest) returns (r: Result<Feedback>)
      requires Valid()
      modifies this
      ensures Valid()
      ensures r == Feedbacks.SubmitFeedback(old(appointments), old(feedback), caller, req, old(nextId))
      ensures r.Ok? ==> feedback == old(feedback) + [r.value] && nextId == old(nextId) + 1
      ensures r.Ok? ==> IndexOf(old(appointments), AppointmentId, r.value.appointment).Some?
      ensures r.Ok? ==> var k := IndexOf(old(appointments), AppointmentId, r.value.appointment).value;
                        appointments == old(appointments)[k := Feedbacks.MarkFeedbackSubmitted(old(appointments)[k])]
      ensures r.Err? ==> feedback == old(feedback) && appointments == old(appointments) && nextId == old(nextId)
      ensures users == old(users) && vehicles == old(vehicles) && inventory == old(inventory)
      ensures complaints == old(complaints)
    {
      r := Feedbacks.SubmitFeedback(appointments, feedback, caller, req, nextId);
      if r.Ok? {
        var k := IndexOf(appointments, AppointmentId, r.value.appointment).value;
        FeedbackKeepsLinks(appointments, feedback, caller, req, k, nextId);
        WithAppointments(users, appointments, vehicles, inventory, feedback, complaints, nextId, appointments[k := Feedbacks.MarkFeedbackSubmitted(appointments[k])],
                         feedback + [r.value], nextId + 1);
        feedback := feedback + [r.value];
        appointments := appointments[k := Feedbacks.MarkFeedbackSubmitted(appointments[k])];
        nextId := nextId + 1;
      }
    }

    // -------------------------------------------------------------------
    // Complaints

    /** `submitComplaint`: on success exactly one ticket is added. */
    method SubmitComplaint(caller: Caller, req: Complaints.ComplaintRequest) returns (r: Result<Complaint>)
      requires Valid()
      modifies this
      ensures Valid()
      ensures r == Complaints.SubmitComplaint(caller, req, old(nextId))
      ensures r.Ok? ==> complaints == old(complaints) + [r.value] && nextId == old(nextId) + 1
      ensures r.Err? ==> complaints == old(complaints) && nextId == old(nextId)
      ensures users == old(users) && appointments == old(appointments) && vehicles == old(vehicles)
      ensures inventory == old(inventory) && feedback == old(feedback)
    {
      r, complaints, nextId := SubmitComplaintTo(users, appointments, vehicles, inventory, feedback, complaints, nextId,
                                                 caller, req);
    }

    /** `updateComplaint`: on success the ticket is replaced by its merge, in
        place. `now` is the clock reading of the request. */
    method UpdateComplaint(caller: Caller, id: Id, req: Complaints.UpdateRequest, now: Timestamp)
      returns (r: Result<Complaint>)
      requires Valid()
      modifies this
      ensures Valid()
      ensures r == Complaints.UpdateComplaint(Lookup(old(complaints), ComplaintId, id), caller, req, now)
      ensures r.Ok? ==> IndexOf(old(complaints), ComplaintId, id).Some?
      ensures r.Ok? ==> complaints == old(complaints)[IndexOf(old(complaints), ComplaintId, id).value := r.value]
      ensures r.Err? ==> complaints == old(complaints)
      ensures users == old(users) && appointments == old(appointments) && vehicles == old(vehicles)
      ensures inventory == old(inventory) && feedback == old(feedback) && nextId == old(nextId)
    {
      r := Complaints.UpdateComplaint(Lookup(complaints, ComplaintId, id), caller, req, now);
      if r.Ok? {
        var k := IndexOf(complaints, ComplaintId, id).value;
        ReplaceKeepsComplaints(complaints, k, r.value, nextId);
        WithComplaints(users, appointments, vehicles, inventory, feedback, complaints, nextId, complaints[k := r.value], nextId);
        complaints := complaints[k := r.value];
      }
    }

    /** `deleteComplaint`: exactly the ticket with that id is removed. */
    method DeleteComplaint(id: Id) returns (r: Result<Complaint>)
      requires Valid()
      modifies this
      ensures Valid()
      ensures r == Complaints.DeleteComplaint(Lookup(old(complaints), ComplaintId, id))
      ensures r.Ok? ==> IndexOf(old(complaints), ComplaintId, id).Some?
      ensures r.Ok? ==> complaints == RemoveAt(old(complaints), IndexOf(old(complaints), ComplaintId, id).value)
      ensures r.Ok? ==> |complaints| == |old(complaints)| - 1 && forall j | 0 <= j < |complaints| :: complaints[j].id != id
      ensures r.Err? ==> complaints == old(complaints)
      ensures users == old(users) && appointments == old(appointments) && vehicles == old(vehicles)
      ensures inventory == old(inventory) && feedback == old(feedback) && nextId == old(nextId)
    {
      r := Complaints.DeleteComplaint(Lookup(complaints, ComplaintId, id));
      if r.Ok? {
        var k := IndexOf(complaints, ComplaintId, id).value;
        RemoveKeepsComplaints(complaints, k, nextId);
        WithComplaints(users, appointments, vehicles, inventory, feedback, complaints, nextId, RemoveAt(complaints, k), nextId);
        RemoveKeepsKeys(complaints, ComplaintId, nextId, k);
        complaints := RemoveAt(complaints, k);
      }
    }
  }
}
