/** The vehicle handlers' decisions. Every operation is scoped to the
    vehicle's owner, and registration numbers are kept unique in their
    normalised (trimmed, upper-case) form. Query values on `vehicleNo` run
    through the same setters that stored values do. */
module Vehicles {
  import opened Common
  import opened Seqs
  import opened Text
  import opened VehicleModel

  datatype VehicleRequest = VehicleRequest(
    make: Option<string>, model: Option<string>, year: Option<int>, vehicleNo: Option<string>)

  /** `Vehicle.findOne({ vehicleNo: no.toUpperCase() })` finds a document.
      Mongoose casts the filter value through the schema's `trim` and
      `uppercase` setters, so the query compares the normalised number. */
  predicate NumberTaken(vehicles: seq<Vehicle>, no: string)
  {
    exists i | 0 <= i < |vehicles| :: vehicles[i].vehicleNo == NormaliseNo(Upper(no))
  }

  /** A vehicle other than `id` already holds the stored number `no`. */
  predicate HeldByOther(vehicles: seq<Vehicle>, no: string, id: Id)
  {
    exists i | 0 <= i < |vehicles| :: vehicles[i].vehicleNo == no && vehicles[i].id != id
  }

  /** `save()`: the schema's required validators and the unique index on
      `vehicleNo`; a failure answers 500. */
  function SaveVehicle(vehicles: seq<Vehicle>, v: Vehicle): (r: Result<Vehicle>)
    ensures r.Ok? <==> ValidVehicle(v) && !HeldByOther(vehicles, v.vehicleNo, v.id)
    ensures r.Err? ==> r.error == ServerError
    ensures r.Ok? ==> r.value == v
  {
    if ValidVehicle(v) && !HeldByOther(vehicles, v.vehicleNo, v.id) then Ok(v) else Err(ServerError)
  }

  /** The document for the given fields once the schema's setters have run. */
  function Document(id: Id, customer: Id, make: string, model: string, year: int, no: string): (v: Vehicle)
    ensures v.make == Trim(make) && v.model == Trim(model) && v.vehicleNo == NormaliseNo(no)
    ensures ValidVehicle(v) <==> Trim(make) != "" && Trim(model) != "" && NormaliseNo(no) != ""
  {
    TrimIdempotent(make);
    TrimIdempotent(model);
    NormaliseIdempotent(no);
    Vehicle(id, customer, Trim(make), Trim(model), year, NormaliseNo(no))
  }

  predicate VehicleComplete(req: VehicleRequest)
  {
    Given(req.make) && Given(req.model) && GivenNumber(req.year) && Given(req.vehicleNo)
  }

  /** `addVehicle`: all four fields are required, the normalised number
      must be new, and the vehicle belongs to the caller. */
  function AddVehicle(vehicles: seq<Vehicle>, caller: Caller, req: VehicleRequest, id: Id): (r: Result<Vehicle>)
    ensures r == Err(BadRequest) <==> !VehicleComplete(req) || NumberTaken(vehicles, req.vehicleNo.value)
    ensures r.Ok? ==>
              && r.value.id == id && r.value.customer == caller.id
              && r.value.make == Trim(req.make.value) && r.value.model == Trim(req.model.value)
              && r.value.year == req.year.value
              && r.value.vehicleNo == NormaliseNo(req.vehicleNo.value)
              && ValidVehicle(r.value)
    ensures r.Ok? && Trimmed(req.vehicleNo.value) ==> r.value.vehicleNo == Upper(req.vehicleNo.value)
    ensures VehicleComplete(req) && !NumberTaken(vehicles, req.vehicleNo.value) ==>
              (r.Ok? <==> Trim(req.make.value) != "" && Trim(req.model.value) != "" && Trim(req.vehicleNo.value) != "")
  {
    if !VehicleComplete(req) then Err(BadRequest)
    else if NumberTaken(vehicles, req.vehicleNo.value) then Err(BadRequest)
    else
      UpperThenNormalise(req.vehicleNo.value);
      SaveVehicle(vehicles, Document(id, caller.id, req.make.value, req.model.value, req.year.value,
                                     Upper(req.vehicleNo.value)))
  }

  /** A registered vehicle keeps numbers unique. */
  lemma AddKeepsNumbersUnique(vehicles: seq<Vehicle>, caller: Caller, req: VehicleRequest, id: Id)
    requires NumbersUnique(vehicles)
    requires AddVehicle(vehicles, caller, req, id).Ok?
    ensures NumbersUnique(vehicles + [AddVehicle(vehicles, caller, req, id).value])
  {
    var v := AddVehicle(vehicles, caller, req, id).value;
    var s := vehicles + [v];
    UpperThenNormalise(req.vehicleNo.value);
    forall i, j | 0 <= i < j < |s| ensures s[i].vehicleNo != s[j].vehicleNo {
      if j == |vehicles| {
        assert s[i] == vehicles[i];
        assert vehicles[i].vehicleNo != NormaliseNo(Upper(req.vehicleNo.value));
      }
    }
  }

  /** The owner-scoped lookup shared by `getVehicleById` and `deleteVehicle`. */
  function FindOwned(vehicles: seq<Vehicle>, caller: Caller, id: Id): (r: Result<Vehicle>)
    ensures r == Err(NotFound) <==> forall j | 0 <= j < |vehicles| :: vehicles[j].id != id
    ensures r.Ok? ==> r.value in vehicles && r.value.id == id && r.value.customer == caller.id
    ensures r.Ok? || r == Err(NotFound) || r == Err(Forbidden)
  {
    match Lookup(vehicles, VehicleId, id)
    case None => Err(NotFound)
    case Some(v) => if v.customer == caller.id then Ok(v) else Err(Forbidden)
  }

  /** With distinct ids, the lookup answers 403 exactly for someone else's vehicle. */
  lemma FindOwnedIffOwner(vehicles: seq<Vehicle>, caller: Caller, k: nat)
    requires DistinctKeys(vehicles, VehicleId) && k < |vehicles|
    ensures FindOwned(vehicles, caller, vehicles[k].id) ==
              (if vehicles[k].customer == caller.id then Ok(vehicles[k]) else Err(Forbidden))
  {
    IndexOfDistinct(vehicles, VehicleId, k);
  }

  /** The number must be checked for duplicates: as the handler is written,
      whenever the given number differs from the stored one as raw text. */
  predicate ChecksNumberAsWritten(v: Vehicle, req: VehicleRequest)
  {
    Given(req.vehicleNo) && req.vehicleNo.value != v.vehicleNo
  }

  /** The corrected test: only when the number would actually change. */
  predicate ChecksNumber(v: Vehicle, req: VehicleRequest)
  {
    Given(req.vehicleNo) && NormaliseNo(req.vehicleNo.value) != v.vehicleNo
  }

  /** The field merge of `updateVehicle`: each field is replaced only by a
      truthy value; the setters run on the assigned values. */
  function MergeVehicle(v: Vehicle, req: VehicleRequest): (r: Vehicle)
    ensures r.id == v.id && r.customer == v.customer
    ensures r.make == Trim(if Given(req.make) then req.make.value else v.make)
    ensures r.model == Trim(if Given(req.model) then req.model.value else v.model)
    ensures r.year == (if GivenNumber(req.year) then req.year.value else v.year)
    ensures r.vehicleNo == (if Given(req.vehicleNo) then NormaliseNo(req.vehicleNo.value) else NormaliseNo(v.vehicleNo))
  {
    UpperThenNormalise(OrElse(req.vehicleNo, v.vehicleNo));
    Document(v.id, v.customer, OrElse(req.make, v.make), OrElse(req.model, v.model),
             if GivenNumber(req.year) then req.year.value else v.year,
             if Given(req.vehicleNo) then Upper(req.vehicleNo.value) else v.vehicleNo)
  }

  /** A valid vehicle merged with an empty request is itself. */
  lemma MergeEmptyKeepsVehicle(v: Vehicle)
    requires ValidVehicle(v)
    ensures MergeVehicle(v, VehicleRequest(None, None, None, None)) == v
  {
    ValidVehicleIsFixedPoint(v);
    var m := MergeVehicle(v, VehicleRequest(None, None, None, None));
    assert m.make == v.make && m.model == v.model && m.vehicleNo == v.vehicleNo;
  }

  /** `updateVehicle` with the duplicate test chosen by `corrected`: 404, 403,
      400 for a duplicate number, then the merged document is saved. */
  function UpdateVehicleWith(vehicles: seq<Vehicle>, caller: Caller, id: Id, req: VehicleRequest,
                             corrected: bool): (r: Result<Vehicle>)
    ensures r == Err(NotFound) <==> forall j | 0 <= j < |vehicles| :: vehicles[j].id != id
    ensures r == Err(Forbidden) <==> FindOwned(vehicles, caller, id) == Err(Forbidden)
    ensures r == Err(BadRequest) <==>
              && FindOwned(vehicles, caller, id).Ok?
              && (if corrected then ChecksNumber(FindOwned(vehicles, caller, id).value, req)
                  else ChecksNumberAsWritten(FindOwned(vehicles, caller, id).value, req))
              && NumberTaken(vehicles, req.vehicleNo.value)
    ensures r.Ok? <==>
              && FindOwned(vehicles, caller, id).Ok?
              && !((if corrected then ChecksNumber(FindOwned(vehicles, caller, id).value, req)
                    else ChecksNumberAsWritten(FindOwned(vehicles, caller, id).value, req))
                   && NumberTaken(vehicles, req.vehicleNo.value))
              && SaveVehicle(vehicles, MergeVehicle(FindOwned(vehicles, caller, id).value, req)).Ok?
    ensures r.Err? ==> r.error in {NotFound, Forbidden, BadRequest, ServerError}
    ensures r.Ok? ==> r.value == MergeVehicle(FindOwned(vehicles, caller, id).value, req) && ValidVehicle(r.value)
  {
    match FindOwned(vehicles, caller, id)
    case Err(e) => Err(e)
    case Ok(v) =>
      var check := if corrected then ChecksNumber(v, req) else ChecksNumberAsWritten(v, req);
      if check && NumberTaken(vehicles, req.vehicleNo.value) then Err(BadRequest)
      else SaveVehicle(vehicles, MergeVehicle(v, req))
  }

  /** `updateVehicle` exactly as written. */
  function UpdateVehicleAsWritten(vehicles: seq<Vehicle>, caller: Caller, id: Id, req: VehicleRequest): (r: Result<Vehicle>)
    ensures r.Ok? ==> ValidVehicle(r.value) && r.value.customer == caller.id
  {
    UpdateVehicleWith(vehicles, caller, id, req, false)
  }

  /** `updateVehicle` with the duplicate test it evidently intends. */
  function UpdateVehicle(vehicles: seq<Vehicle>, caller: Caller, id: Id, req: VehicleRequest): (r: Result<Vehicle>)
    ensures r.Ok? ==> ValidVehicle(r.value) && r.value.customer == caller.id
  {
    UpdateVehicleWith(vehicles, caller, id, req, true)
  }

  /** Either version keeps registration numbers unique. */
  lemma UpdateKeepsNumbersUnique(vehicles: seq<Vehicle>, caller: Caller, k: nat, req: VehicleRequest, corrected: bool)
    requires NumbersUnique(vehicles) && DistinctKeys(vehicles, VehicleId) && k < |vehicles|
    requires UpdateVehicleWith(vehicles, caller, vehicles[k].id, req, corrected).Ok?
    ensures NumbersUnique(vehicles[k := UpdateVehicleWith(vehicles, caller, vehicles[k].id, req, corrected).value])
  {
    FindOwnedIffOwner(vehicles, caller, k);
    var v := UpdateVehicleWith(vehicles, caller, vehicles[k].id, req, corrected).value;
    var s := vehicles[k := v];
    assert !HeldByOther(vehicles, v.vehicleNo, v.id);
    forall i, j | 0 <= i < j < |s| ensures s[i].vehicleNo != s[j].vehicleNo {
      if i == k {
        assert vehicles[j].id != v.id by { IndexOfDistinct(vehicles, VehicleId, j); }
      } else if j == k {
        assert vehicles[i].id != v.id by { IndexOfDistinct(vehicles, VehicleId, i); }
      }
    }
  }

  /** With the corrected test, resubmitting one's own number in any spelling
      that normalises to it never answers 400. */
  lemma ResubmittedNumberAccepted(vehicles: seq<Vehicle>, caller: Caller, k: nat, req: VehicleRequest)
    requires DistinctKeys(vehicles, VehicleId) && k < |vehicles| && vehicles[k].customer == caller.id
    requires Given(req.vehicleNo) && NormaliseNo(req.vehicleNo.value) == vehicles[k].vehicleNo
    ensures UpdateVehicle(vehicles, caller, vehicles[k].id, req) != Err(BadRequest)
  {
    FindOwnedIffOwner(vehicles, caller, k);
  }

  /** As written, resubmitting one's own number in another spelling that
      normalises to it (lower case, surrounding blanks) finds the vehicle
      itself as a duplicate and answers 400. */
  lemma AsWrittenRejectsOwnNumber(vehicles: seq<Vehicle>, caller: Caller, k: nat, req: VehicleRequest)
    requires DistinctKeys(vehicles, VehicleId) && k < |vehicles| && vehicles[k].customer == caller.id
    requires Given(req.vehicleNo) && req.vehicleNo.value != vehicles[k].vehicleNo
    requires NormaliseNo(req.vehicleNo.value) == vehicles[k].vehicleNo
    ensures UpdateVehicleAsWritten(vehicles, caller, vehicles[k].id, req) == Err(BadRequest)
  {
    FindOwnedIffOwner(vehicles, caller, k);
    UpperThenNormalise(req.vehicleNo.value);
    assert NumberTaken(vehicles, req.vehicleNo.value) by {
      assert vehicles[k].vehicleNo == NormaliseNo(Upper(req.vehicleNo.value));
    }
    assert ChecksNumberAsWritten(vehicles[k], req);
  }

  /** A valid vehicle merged with a request that only resubmits its number
      is itself. */
  lemma MergeOwnNumberKeepsVehicle(v: Vehicle, no: string)
    requires ValidVehicle(v) && no != "" && NormaliseNo(no) == v.vehicleNo
    ensures MergeVehicle(v, VehicleRequest(None, None, None, Some(no))) == v
  {
    ValidVehicleIsFixedPoint(v);
    var m := MergeVehicle(v, VehicleRequest(None, None, None, Some(no)));
    assert m.make == v.make && m.model == v.model && m.vehicleNo == v.vehicleNo;
  }

  /** With unique numbers, no other vehicle holds a vehicle's own number. */
  lemma SoleHolder(vehicles: seq<Vehicle>, k: nat)
    requires NumbersUnique(vehicles) && k < |vehicles|
    ensures !HeldByOther(vehicles, vehicles[k].vehicleNo, vehicles[k].id)
  {
    forall i | 0 <= i < |vehicles| && vehicles[i].vehicleNo == vehicles[k].vehicleNo
      ensures vehicles[i].id == vehicles[k].id
    {
      assert i == k;
    }
  }

  /** With the corrected test, the same request on a consistent collection
      leaves the vehicle exactly as it was. */
  lemma CorrectedKeepsOwnNumber(vehicles: seq<Vehicle>, caller: Caller, k: nat, no: string)
    requires DistinctKeys(vehicles, VehicleId) && NumbersUnique(vehicles) && k < |vehicles|
    requires ValidVehicle(vehicles[k]) && vehicles[k].customer == caller.id
    requires no != "" && NormaliseNo(no) == vehicles[k].vehicleNo
    ensures UpdateVehicle(vehicles, caller, vehicles[k].id, VehicleRequest(None, None, None, Some(no))) == Ok(vehicles[k])
  {
    FindOwnedIffOwner(vehicles, caller, k);
    var v := vehicles[k];
    var req := VehicleRequest(None, None, None, Some(no));
    assert !ChecksNumber(v, req);
    MergeOwnNumberKeepsVehicle(v, no);
    SoleHolder(vehicles, k);
    assert SaveVehicle(vehicles, v) == Ok(v);
  }

  /** A concrete pair for the two lemmas above: the stored "ABC1" and the
      submitted "abc1". */
  lemma LowerCaseSpelling()
    ensures "abc1" != "ABC1" && NormaliseNo("abc1") == "ABC1"
    ensures ValidVehicle(Vehicle(1, 7, "Toyota", "Corolla", 2020, "ABC1"))
  {
    LowerNumberNormalised();
    ExampleVehicleValid();
    assert "abc1"[0] != "ABC1"[0];
  }

  lemma ExampleVehicleValid()
    ensures ValidVehicle(Vehicle(1, 7, "Toyota", "Corolla", 2020, "ABC1"))
  {
    var no := "ABC1";
    assert Trimmed("Toyota") && Trimmed("Corolla") && Trimmed(no);
    assert forall i | 0 <= i < |no| :: !('a' <= no[i] <= 'z');
  }

  lemma LowerNumberNormalised()
    ensures NormaliseNo("abc1") == "ABC1"
  {
    LowerNumberTrimmed();
    UpperExample();
  }

  lemma LowerNumberTrimmed()
    ensures NormaliseNo("abc1") == Upper("abc1")
  {
    assert Trimmed("abc1");
    UpperThenNormalise("abc1");
  }

  lemma UpperExample()
    ensures Upper("abc1") == "ABC1"
  {
    var r := Upper("abc1");
    assert r[0] == 'A' && r[1] == 'B' && r[2] == 'C' && r[3] == '1';
  }

  /** The example end to end, on a collection holding only that vehicle: as
      written the handler answers 400 ... */
  lemma ExampleAsWritten()
    ensures UpdateVehicleAsWritten([Vehicle(1, 7, "Toyota", "Corolla", 2020, "ABC1")], Caller(7, Customer), 1,
                                   VehicleRequest(None, None, None, Some("abc1"))) == Err(BadRequest)
  {
    LowerCaseSpelling();
    AsWrittenRejectsOwnNumber([Vehicle(1, 7, "Toyota", "Corolla", 2020, "ABC1")], Caller(7, Customer), 0,
                              VehicleRequest(None, None, None, Some("abc1")));
  }

  /** ... and corrected it saves the vehicle unchanged. */
  lemma ExampleCorrected()
    ensures UpdateVehicle([Vehicle(1, 7, "Toyota", "Corolla", 2020, "ABC1")], Caller(7, Customer), 1,
                          VehicleRequest(None, None, None, Some("abc1"))) == Ok(Vehicle(1, 7, "Toyota", "Corolla", 2020, "ABC1"))
  {
    LowerCaseSpelling();
    CorrectedKeepsOwnNumber([Vehicle(1, 7, "Toyota", "Corolla", 2020, "ABC1")], Caller(7, Customer), 0, "abc1");
  }

  /** The `find({ customer })` query of the caller's vehicles. */
  function OwnedBy(caller: Caller): Vehicle -> bool
  {
    (v: Vehicle) => v.customer == caller.id
  }

  /** `getMyVehicles`: exactly the caller's vehicles, newest first. */
  function MyVehicles(vehicles: seq<Vehicle>, caller: Caller): (r: seq<Vehicle>)
    ensures forall v :: v in r <==> v in vehicles && v.customer == caller.id
    ensures NewestFirst(r, Filter(vehicles, OwnedBy(caller)))
  {
    var mine := Filter(vehicles, OwnedBy(caller));
    ReverseMembers(mine);
    Reverse(mine)
  }

  /** A vehicle added last heads its owner's listing, ahead of the earlier
      ones in their listed order; other callers' listings do not change. */
  lemma {:induction false} NewVehicleListedFirst(vehicles: seq<Vehicle>, v: Vehicle, caller: Caller)
    ensures MyVehicles(vehicles + [v], caller) ==
              (if v.customer == caller.id then [v] else []) + MyVehicles(vehicles, caller)
  {
    var m := Filter(vehicles, OwnedBy(caller));
    var x := if v.customer == caller.id then [v] else [];
    FilterSnoc(vehicles, v, OwnedBy(caller));
    assert Filter(vehicles + [v], OwnedBy(caller)) == m + x;
    ReverseAppend(m, x);
    assert Reverse(x) == x;
  }
}
