/** The request and response models of vin_app/models.py: the VIN format
    check that pydantic runs when a lookup or a delete request is built, and
    the shape of the two responses. */
module VinAppModels {
  import opened Wrappers

  /** The length every VIN has. */
  const VinLength: nat := 17

  /** The error the validators raise: "VIN must contain 17 alphanumeric characters". */
  datatype ValidationError = NotSeventeenAlphanumeric

  /** One character that Python's str.isalnum accepts, restricted to ASCII. */
  predicate IsAlnumChar(c: char)
  {
    ('a' <= c <= 'z') || ('A' <= c <= 'Z') || ('0' <= c <= '9')
  }

  /** Python's str.isalnum: at least one character, and every character alphanumeric. */
  predicate IsAlnum(s: string)
    ensures IsAlnum(s) <==> |s| > 0 && forall i :: 0 <= i < |s| ==> IsAlnumChar(s[i])
  {
    |s| > 0 && IsAlnumChar(s[0]) && (|s| == 1 || IsAlnum(s[1..]))
  }

  /** A well-formed VIN: exactly 17 characters, each a letter or a digit. */
  predicate IsValidVin(s: string)
  {
    |s| == VinLength && forall i :: 0 <= i < |s| ==> IsAlnumChar(s[i])
  }

  /** VinPostRequest.validate_vin: rejects unless the length is 17 and the
      string is alphanumeric, and returns the string unchanged otherwise. */
  function ValidateVin(vin: string): (r: Result<string, ValidationError>)
    ensures r.Success? <==> IsValidVin(vin)
    ensures r.Success? ==> r.value == vin
  {
    if |vin| != VinLength || !IsAlnum(vin) then Failure(NotSeventeenAlphanumeric)
    else Success(vin)
  }

  /** VinDeleteRequest.validate_vin as written: the length test is negated
      twice, so it rejects exactly the 17-character strings. */
  function DeleteRequestValidateVin(vin: string): (r: Result<string, ValidationError>)
    ensures r.Success? <==> |vin| != VinLength && |vin| > 0 && forall i :: 0 <= i < |vin| ==> IsAlnumChar(vin[i])
    ensures r.Success? ==> r.value == vin
  {
    if !(|vin| != VinLength) || !IsAlnum(vin) then Failure(NotSeventeenAlphanumeric)
    else Success(vin)
  }

  /** The VinPostResponse model. */
  datatype PostResponse = PostResponse(
    vinRequested: string,
    make: string,
    model: string,
    modelYear: string,
    bodyClass: string,
    cachedResult: bool)

  /** The VinDeleteResponse model. */
  datatype DeleteResponse = DeleteResponse(vinRequested: string, deleteSuccess: bool)

  /** The error pydantic raises when a VinPostResponse is built with a field
      that is None where a str is declared. */
  datatype ResponseError = MissingField

  /** Building a VinPostResponse: every attribute must be a string, so an
      absent one makes construction fail. */
  function BuildPostResponse(vin: string, make: Option<string>, model: Option<string>,
                             modelYear: Option<string>, bodyClass: Option<string>,
                             cached: bool): (r: Result<PostResponse, ResponseError>)
    ensures r.Success? <==> make.Some? && model.Some? && modelYear.Some? && bodyClass.Some?
    ensures r.Success? ==> r.value.vinRequested == vin && r.value.cachedResult == cached
    ensures r.Success? ==> r.value.make == make.value && r.value.model == model.value
    ensures r.Success? ==> r.value.modelYear == modelYear.value && r.value.bodyClass == bodyClass.value
  {
    match (make, model, modelYear, bodyClass)
    case (Some(mk), Some(md), Some(yr), Some(bc)) => Success(PostResponse(vin, mk, md, yr, bc, cached))
    case _ => Failure(MissingField)
  }

  /** The delete validator rejects every string of VIN length, even a fully
      alphanumeric one. */
  lemma DeleteRejectsEveryVinLength(vin: string)
    requires |vin| == VinLength
    ensures DeleteRequestValidateVin(vin).Failure?
  {
  }

  /** No string is accepted both by the lookup request and by the delete request. */
  lemma PostAndDeleteDisjoint(vin: string)
    ensures !(ValidateVin(vin).Success? && DeleteRequestValidateVin(vin).Success?)
  {
  }

  /** The VIN the delete test builds its request from is a valid VIN, and the
      delete validator as written rejects it. */
  lemma DeleteRejectsTestVin()
    ensures IsValidVin("testvinabcde12345")
    ensures ValidateVin("testvinabcde12345") == Success("testvinabcde12345")
    ensures DeleteRequestValidateVin("testvinabcde12345").Failure?
  {
  }
}
