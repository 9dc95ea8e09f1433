/** The Vin table of models.py: a row keyed by a String(17) primary key whose
    SQLAlchemy validator checks every value assigned to the vin column. */
module VinTable {
  import opened Wrappers
  import opened VinAppModels

  /** One row of the Vin table; the four attribute columns are nullable. */
  datatype VinRow = VinRow(
    vin: string,
    make: Option<string>,
    model: Option<string>,
    modelYear: Option<string>,
    bodyClass: Option<string>)

  /** Vin.validate_vin as written: the same doubly negated length test as the
      delete request, so every 17-character string is refused. */
  function VinRowValidateVin(vin: string): (r: Result<string, ValidationError>)
    ensures r.Success? ==> r.value == vin
    ensures |vin| == VinLength ==> r.Failure?
    ensures r.Success? <==> |vin| != VinLength && IsAlnum(vin)
  {
    if !(|vin| != VinLength) || !IsAlnum(vin) then Failure(NotSeventeenAlphanumeric)
    else Success(vin)
  }

  /** Assigning a vin to a row goes through the validator; the other columns
      are stored as given. */
  function NewVinRow(vin: string, make: Option<string>, model: Option<string>,
                     modelYear: Option<string>, bodyClass: Option<string>): (r: Result<VinRow, ValidationError>)
    ensures r.Success? <==> VinRowValidateVin(vin).Success?
    ensures r.Success? ==> r.value.vin == vin && r.value.make == make && r.value.model == model
    ensures r.Success? ==> r.value.modelYear == modelYear && r.value.bodyClass == bodyClass
  {
    match VinRowValidateVin(vin)
    case Success(v) => Success(VinRow(v, make, model, modelYear, bodyClass))
    case Failure(e) => Failure(e)
  }

  /** The row validator refuses every string with a non-alphanumeric
      character, and the empty string. */
  lemma VinRowRejectsNonAlnum(vin: string, i: nat)
    requires i < |vin| && !IsAlnumChar(vin[i])
    ensures VinRowValidateVin(vin).Failure? && VinRowValidateVin("").Failure?
  {
  }

  /** No valid VIN can ever be stored in the Vin table, although its key
      column is declared with length 17. */
  lemma NoValidVinFitsTheTable(vin: string, make: Option<string>, model: Option<string>,
                               modelYear: Option<string>, bodyClass: Option<string>)
    requires IsValidVin(vin)
    ensures NewVinRow(vin, make, model, modelYear, bodyClass).Failure?
  {
  }

  /** The row validator accepts exactly what the delete request accepts. */
  lemma VinRowAgreesWithDelete(vin: string)
    ensures VinRowValidateVin(vin) == DeleteRequestValidateVin(vin)
  {
  }
}
