/** The vehicle document and the normalisation its schema applies to the
    registration number. */
module VehicleModel {
  import opened Common
  import opened Text

  datatype Vehicle = Vehicle(id: Id, customer: Id, make: string, model: string, year: int, vehicleNo: string)

  /** The schema's setters on `vehicleNo`: trimmed, then upper-cased. */
  function NormaliseNo(s: string): (r: string)
    ensures Normalised(r)
    ensures |r| <= |s|
  {
    var t := Trim(s);
    UpperKeepsTrimmed(t);
    UpperHasNoLowerCase(t);
    Upper(t)
  }

  /** A number the setters leave alone: trimmed, no lower-case ASCII letter. */
  predicate Normalised(s: string)
  {
    Trimmed(s) && forall i | 0 <= i < |s| :: !('a' <= s[i] <= 'z')
  }

  /** The normalised numbers are exactly the fixed points of the setters. */
  lemma NormalisedIsFixedPoint(s: string)
    ensures Normalised(s) <==> NormaliseNo(s) == s
  {
    if Normalised(s) {
      TrimOfTrimmed(s);
      assert Upper(s) == s;
    }
  }

  /** Upper-casing twice or trimming an upper-cased number changes nothing:
      a stored number is a fixed point of the setters. */
  lemma NormaliseIdempotent(s: string)
    ensures NormaliseNo(NormaliseNo(s)) == NormaliseNo(s)
  {
    var t := Trim(s);
    UpperKeepsTrimmed(t);
    TrimOfTrimmed(Upper(t));
    UpperIdempotent(t);
  }

  /** The controller upper-cases the number before the setters run; this
      adds nothing to what the setters do, and a number given without
      surrounding white space is stored exactly upper-cased. */
  lemma UpperThenNormalise(s: string)
    ensures NormaliseNo(Upper(s)) == NormaliseNo(s)
    ensures Trimmed(s) ==> NormaliseNo(s) == Upper(s)
  {
    UpperCommutesWithTrim(s);
    UpperIdempotent(Trim(s));
    if Trimmed(s) {
      TrimOfTrimmed(s);
    }
  }

  /** What the schema demands of a stored vehicle: make and model trimmed and
      non-empty, the number normalised and non-empty. */
  predicate ValidVehicle(v: Vehicle)
  {
    && v.make != "" && Trimmed(v.make)
    && v.model != "" && Trimmed(v.model)
    && v.vehicleNo != "" && Normalised(v.vehicleNo)
  }

  /** Equivalently: a valid vehicle is one the setters leave unchanged. */
  lemma ValidVehicleIsFixedPoint(v: Vehicle)
    ensures ValidVehicle(v) <==>
              && v.make != "" && Trim(v.make) == v.make
              && v.model != "" && Trim(v.model) == v.model
              && v.vehicleNo != "" && NormaliseNo(v.vehicleNo) == v.vehicleNo
  {
    NormalisedIsFixedPoint(v.vehicleNo);
    if Trimmed(v.make) { TrimOfTrimmed(v.make); }
    if Trimmed(v.model) { TrimOfTrimmed(v.model); }
  }

  /** The unique index on `vehicleNo`. */
  predicate NumbersUnique(vs: seq<Vehicle>)
  {
    forall i, j | 0 <= i < j < |vs| :: vs[i].vehicleNo != vs[j].vehicleNo
  }

  function VehicleId(v: Vehicle): Id { v.id }
}
