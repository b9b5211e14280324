/** The manager handlers' decisions: mechanic accounts, the unassigned-job
    queue, set-once assignment, stock receipt and supplier orders. */
module Manager {
  import opened Common
  import opened Seqs
  import opened Records
  import opened AppointmentModel
  import opened Appointments

  // ---------------------------------------------------------------------
  // Mechanic accounts

  predicate EmailsUnique(users: seq<User>)
  {
    forall i, j | 0 <= i < j < |users| :: users[i].email != users[j].email
  }

  predicate EmailTaken(users: seq<User>, email: string)
  {
    exists i | 0 <= i < |users| :: users[i].email == email
  }

  datatype MechanicRequest = MechanicRequest(name: Option<string>, email: Option<string>, password: Option<string>)

  /** `createMechanic`: name, email and password are required and the email
      must be unused; the account has role Mechanic. */
  function CreateMechanic(users: seq<User>, req: MechanicRequest, id: Id): (r: Result<User>)
    ensures r.Ok? || r == Err(BadRequest)
    ensures r.Ok? <==> Given(req.name) && Given(req.email) && Given(req.password) && !EmailTaken(users, req.email.value)
    ensures r.Ok? ==> r.value == User(id, req.name.value, req.email.value, Mechanic)
  {
    if !Given(req.name) || !Given(req.email) || !Given(req.password) then Err(BadRequest)
    else if EmailTaken(users, req.email.value) then Err(BadRequest)
    else Ok(User(id, req.name.value, req.email.value, Mechanic))
  }

  lemma CreateMechanicKeepsEmailsUnique(users: seq<User>, req: MechanicRequest, id: Id)
    requires EmailsUnique(users) && CreateMechanic(users, req, id).Ok?
    ensures EmailsUnique(users + [CreateMechanic(users, req, id).value])
  {
    var s := users + [CreateMechanic(users, req, id).value];
    forall i, j | 0 <= i < j < |s| ensures s[i].email != s[j].email {
      if j == |users| {
        assert s[i] == users[i];
      }
    }
  }

  /** `getMechanics`: exactly the users with role Mechanic, in stored order. */
  function Mechanics(users: seq<User>): (r: seq<User>)
    ensures forall u :: u in r <==> u in users && u.role == Mechanic
    ensures forall u :: multiset(r)[u] == if u.role == Mechanic then multiset(users)[u] else 0
  {
    FilterMultiplicity(users, (u: User) => u.role == Mechanic);
    Filter(users, (u: User) => u.role == Mechanic)
  }

  /** `deleteMechanic`: only an existing Mechanic account can be removed. */
  function DeleteMechanic(found: Option<User>): (r: Result<User>)
    ensures r.Ok? <==> found.Some? && found.value.role == Mechanic
    ensures r.Err? ==> r.error == NotFound
    ensures r.Ok? ==> r.value == found.value
  {
    if found.Some? && found.value.role == Mechanic then Ok(found.value) else Err(NotFound)
  }

  // ---------------------------------------------------------------------
  // Jobs

  predicate Unassigned(a: Appointment)
  {
    a.status == Scheduled && a.assignedMechanic.None?
  }

  /** `getUnassignedJobs`: exactly the Scheduled appointments without a
      mechanic, earliest slot first. */
  function UnassignedJobs(appts: seq<Appointment>): (r: seq<Appointment>)
    ensures forall a :: a in r <==> a in appts && a.status == Scheduled && a.assignedMechanic.None?
    ensures SortedBy(r, SlotLe)
    ensures forall a :: multiset(r)[a] == if Unassigned(a) then multiset(appts)[a] else 0
  {
    SlotOrdersTotal();
    FilterMultiplicity(appts, Unassigned);
    var open := Filter(appts, Unassigned);
    SortByMembers(open, SlotLe);
    SortBy(open, SlotLe)
  }

  /** `assignJobToMechanic`: the appointment must exist and have no mechanic
      yet, and the target must be a Mechanic account. The status is not
      consulted. Only `assignedMechanic` changes. */
  function Assign(found: Option<Appointment>, mechanic: Option<User>, mechanicId: Id): (r: Result<Appointment>)
    ensures found.None? ==> r == Err(NotFound)
    ensures found.Some? && found.value.assignedMechanic.Some? ==> r == Err(BadRequest)
    ensures r.Ok? <==>
              && found.Some? && found.value.assignedMechanic.None?
              && mechanic.Some? && mechanic.value.role == Mechanic
    ensures r.Ok? ==> r.value == found.value.(assignedMechanic := Some(mechanicId))
    ensures found.Some? && found.value.assignedMechanic.None? && !(mechanic.Some? && mechanic.value.role == Mechanic) ==>
              r == Err(NotFound)
  {
    match found
    case None => Err(NotFound)
    case Some(a) =>
      if a.assignedMechanic.Some? then Err(BadRequest)
      else if mechanic.None? || mechanic.value.role != Mechanic then Err(NotFound)
      else Ok(a.(assignedMechanic := Some(mechanicId)))
  }

  /** An assignment is never overwritten: assigning an assigned job fails,
      and a job just assigned leaves the unassigned queue. */
  lemma AssignIsSetOnce(a: Appointment, mechanic: Option<User>, mechanicId: Id,
                        other: Option<User>, otherId: Id)
    requires Assign(Some(a), mechanic, mechanicId).Ok?
    ensures Assign(Some(Assign(Some(a), mechanic, mechanicId).value), other, otherId) == Err(BadRequest)
    ensures !Unassigned(Assign(Some(a), mechanic, mechanicId).value)
  {
  }

  /** Assignment only touches the mechanic field, so it cannot break the
      slot invariant. */
  lemma AssignKeepsSlotsExclusive(appts: seq<Appointment>, i: nat, mechanic: Option<User>, mechanicId: Id)
    requires SlotsExclusive(appts) && i < |appts|
    requires Assign(Some(appts[i]), mechanic, mechanicId).Ok?
    ensures SlotsExclusive(appts[i := Assign(Some(appts[i]), mechanic, mechanicId).value])
  {
    var s := appts[i := Assign(Some(appts[i]), mechanic, mechanicId).value];
    forall j, k | 0 <= j < k < |s|
      ensures !Blocks(s[k], s[j].date, s[j].time) || s[j].status == Cancelled
    {
      assert s[j].date == appts[j].date && s[j].time == appts[j].time && s[j].status == appts[j].status;
      assert s[k].date == appts[k].date && s[k].time == appts[k].time && s[k].status == appts[k].status;
    }
  }

  // ---------------------------------------------------------------------
  // Stock

  /** `receiveInventoryStock`: the quantity is checked before the lookup;
      the stock grows by exactly the quantity received. */
  function ReceiveStock(found: Option<InventoryItem>, quantityReceived: Option<int>): (r: Result<InventoryItem>)
    ensures !GivenNumber(quantityReceived) || quantityReceived.value <= 0 ==> r == Err(BadRequest)
    ensures r == Err(NotFound) <==> GivenNumber(quantityReceived) && quantityReceived.value > 0 && found.None?
    ensures r.Ok? <==> GivenNumber(quantityReceived) && quantityReceived.value > 0 && found.Some?
    ensures r.Ok? ==> r.value == found.value.(quantity := found.value.quantity + quantityReceived.value)
    ensures r.Ok? ==> r.value.quantity > found.value.quantity
  {
    if !GivenNumber(quantityReceived) || quantityReceived.value <= 0 then Err(BadRequest)
    else match found
      case None => Err(NotFound)
      case Some(item) => Ok(item.(quantity := item.quantity + quantityReceived.value))
  }

  /** Two receipts add up: receiving p and then q is receiving p + q. */
  lemma ReceiptsAdd(item: InventoryItem, p: int, q: int)
    requires p > 0 && q > 0
    ensures ReceiveStock(Some(ReceiveStock(Some(item), Some(p)).value), Some(q)) == ReceiveStock(Some(item), Some(p + q))
  {
  }

  /** `orderInventoryItem`: the item must exist, then a supplier email and a
      quantity are required; `emailSent` is whether the mail transport
      delivered (it is not guarded, so a failure answers 500). The stock is
      never changed. */
  function OrderInventoryItem(found: Option<InventoryItem>, orderQuantity: Option<int>, supplierEmail: Option<string>,
                              emailSent: bool): (r: Result<InventoryItem>)
    ensures found.None? ==> r == Err(NotFound)
    ensures found.Some? && (!Given(supplierEmail) || !GivenNumber(orderQuantity)) ==> r == Err(BadRequest)
    ensures r.Ok? <==> found.Some? && Given(supplierEmail) && GivenNumber(orderQuantity) && emailSent
    ensures found.Some? && Given(supplierEmail) && GivenNumber(orderQuantity) && !emailSent ==> r == Err(ServerError)
    ensures r.Ok? ==> r.value == found.value
  {
    match found
    case None => Err(NotFound)
    case Some(item) =>
      if !Given(supplierEmail) || !GivenNumber(orderQuantity) then Err(BadRequest)
      else if !emailSent then Err(ServerError)
      else Ok(item)
  }
}
