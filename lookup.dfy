/** lookup_vin of main.py: the cache-aside lookup behind POST /lookup. The
    store is the vin_records table, a map from VIN to record; the remote
    decoder's answer is an input, since fetching it is network I/O. */
module LookupService {
  import opened Wrappers
  import opened VinAppModels
  import opened Decode
  import opened Extraction

  /** Why a lookup does not return a response:
      InvalidVin: the VinPostRequest validator refused the VIN;
      DecodingError: HTTP 500 "Error occurred during VIN decoding";
      ResponseValidationError: a VinPostResponse was built from a record
        with an absent attribute;
      NotFound: the extractor found an empty or a missing attribute (only
        in the corrected lookup). */
  datatype LookupError = InvalidVin | DecodingError | ResponseValidationError | NotFound

  /** A lookup's response together with the store it leaves behind. */
  datatype Outcome = Outcome(response: Result<PostResponse, LookupError>, store: map<string, VinRecord>)

  /** Every record is stored under its own VIN. */
  predicate KeyedByVin(store: map<string, VinRecord>)
  {
    forall k :: k in store ==> store[k].vin == k
  }

  /** Every record holds all four attributes. */
  predicate Complete(rec: VinRecord)
  {
    rec.make.Some? && rec.model.Some? && rec.modelYear.Some? && rec.bodyClass.Some?
  }

  /** The VinPostResponse for a record; pydantic refuses a record with an
      absent attribute. */
  function Respond(vin: string, rec: VinRecord, cached: bool): (r: Result<PostResponse, LookupError>)
    ensures r.Success? <==> Complete(rec)
    ensures r.Failure? ==> r.error == ResponseValidationError
    ensures r.Success? ==> r.value == PostResponse(vin, rec.make.value, rec.model.value,
                                                    rec.modelYear.value, rec.bodyClass.value, cached)
  {
    match BuildPostResponse(vin, rec.make, rec.model, rec.modelYear, rec.bodyClass, cached)
    case Success(response) => Success(response)
    case Failure(_) => Failure(ResponseValidationError)
  }

  /** What lookup_vin does, as written: validate the request; on a hit answer
      from the store; on a miss fetch, filter, insert the new record and
      answer from it. */
  function Lookup(store: map<string, VinRecord>, vin: string, remote: DecodeOutcome): Outcome
  {
    if ValidateVin(vin).Failure? then Outcome(Failure(InvalidVin), store)
    else if vin in store then Outcome(Respond(vin, store[vin], true), store)
    else if remote.DecodeFailed? then Outcome(Failure(DecodingError), store)
    else
      var rec := NewRecord(vin, FilterResults(ResultsOf(remote)));
      Outcome(Respond(vin, rec, false), store[vin := rec])
  }

  /** The lookup with the extractor in front of the insert: a record is
      stored only once all four attributes were extracted with values. */
  function CheckedLookup(store: map<string, VinRecord>, vin: string, remote: DecodeOutcome): Outcome
  {
    if ValidateVin(vin).Failure? then Outcome(Failure(InvalidVin), store)
    else if vin in store then Outcome(Respond(vin, store[vin], true), store)
    else if remote.DecodeFailed? then Outcome(Failure(DecodingError), store)
    else
      match Extracted(ResultsOf(remote))
      case Failure(_) => Outcome(Failure(NotFound), store)
      case Success(found) =>
        var rec := NewRecord(vin, found);
        Outcome(Respond(vin, rec, false), store[vin := rec])
  }

  /** The vin_records table and the two ways of looking a VIN up in it. */
  class VinCache {
    var records: map<string, VinRecord>

    /** Every row is stored under its own VIN, so the row a lookup reads or
        leaves under vin is a row for vin. */
    ghost predicate Valid()
      reads this
    {
      KeyedByVin(records)
    }

    constructor ()
      ensures Valid() && records == map[]
    {
      records := map[];
    }

    /** lookup_vin as written. */
    method LookupVin(vin: string, remote: DecodeOutcome) returns (r: Result<PostResponse, LookupError>)
      requires Valid()
      modifies this
      ensures Valid()
      ensures r == Lookup(old(records), vin, remote).response
      ensures records == Lookup(old(records), vin, remote).store
      ensures vin in records ==> records[vin].vin == vin
    {
      if ValidateVin(vin).Failure? {
        return Failure(InvalidVin);
      }
      var isDataCached := false;
      if vin in records {
        isDataCached := true;
        var cachedVin := records[vin];
        return Respond(vin, cachedVin, isDataCached);
      }
      if remote.DecodeFailed? {
        return Failure(DecodingError);
      }
      var results := ResultsOf(remote);
      var filteredData := FilterResults(results);
      var newVin := NewRecord(vin, filteredData);
      records := records[vin := newVin];
      r := Respond(vin, newVin, isDataCached);
    }

    /** The corrected lookup: the extractor runs before the insert. */
    method CheckedLookupVin(vin: string, remote: DecodeOutcome) returns (r: Result<PostResponse, LookupError>)
      requires Valid()
      modifies this
      ensures Valid()
      ensures r == CheckedLookup(old(records), vin, remote).response
      ensures records == CheckedLookup(old(records), vin, remote).store
      ensures vin in records ==> records[vin].vin == vin
    {
      if ValidateVin(vin).Failure? {
        return Failure(InvalidVin);
      }
      if vin in records {
        return Respond(vin, records[vin], true);
      }
      if remote.DecodeFailed? {
        return Failure(DecodingError);
      }
      var extracted := ProcessResult(ResultsOf(remote));
      if extracted.Failure? {
        return Failure(NotFound);
      }
      var newVin := NewRecord(vin, extracted.value);
      records := records[vin := newVin];
      r := Respond(vin, newVin, false);
    }
  }

  /** A record built from a filtered dict is complete exactly when the dict
      holds all four key attributes. */
  lemma CompleteIffAllFiltered(vin: string, filtered: map<string, string>)
    ensures Complete(NewRecord(vin, filtered)) <==> KeyAttributes <= filtered.Keys
  {
    var rec := NewRecord(vin, filtered);
    assert Attribute(rec, "Make") == rec.make && Attribute(rec, "Model") == rec.model;
    assert Attribute(rec, "Model Year") == rec.modelYear && Attribute(rec, "Body Class") == rec.bodyClass;
  }

  /** A request the validator refuses never reaches the store. */
  lemma LookupRejectsInvalid(store: map<string, VinRecord>, vin: string, remote: DecodeOutcome)
    requires !IsValidVin(vin)
    ensures Lookup(store, vin, remote) == Outcome(Failure(InvalidVin), store)
  {
  }

  /** On a hit the stored record is returned with cached_result set, the
      store is unchanged, and the decoder's answer plays no part. */
  lemma LookupHit(store: map<string, VinRecord>, vin: string, remote: DecodeOutcome, other: DecodeOutcome)
    requires IsValidVin(vin) && vin in store
    ensures Lookup(store, vin, remote).store == store
    ensures Lookup(store, vin, remote) == Lookup(store, vin, other)
    ensures Lookup(store, vin, remote).response.Success? <==> Complete(store[vin])
    ensures Complete(store[vin]) ==>
              Lookup(store, vin, remote).response == Success(PostResponse(vin, store[vin].make.value,
                store[vin].model.value, store[vin].modelYear.value, store[vin].bodyClass.value, true))
  {
  }

  /** A failed fetch gives HTTP 500 and leaves the store as it was. */
  lemma LookupDecodeFailure(store: map<string, VinRecord>, vin: string)
    requires IsValidVin(vin) && vin !in store
    ensures Lookup(store, vin, DecodeFailed) == Outcome(Failure(DecodingError), store)
  {
  }

  /** On a miss with a decoded answer the new record holds the filtered
      values, every other key keeps its record, and the response, which
      exists exactly when all four attributes were in the answer, carries the
      stored record's four values and is marked as not cached. */
  lemma LookupMiss(store: map<string, VinRecord>, vin: string, remote: DecodeOutcome)
    requires IsValidVin(vin) && vin !in store && remote.Decoded?
    ensures var o := Lookup(store, vin, remote);
            && o.store.Keys == store.Keys + {vin}
            && o.store[vin] == NewRecord(vin, FilterResults(ResultsOf(remote)))
            && (forall k :: k in store ==> o.store[k] == store[k])
            && (o.response.Success? <==> MentionsAll(ResultsOf(remote)))
            && (o.response.Success? ==> o.response.value == PostResponse(vin, o.store[vin].make.value,
                  o.store[vin].model.value, o.store[vin].modelYear.value, o.store[vin].bodyClass.value, false))
  {
    var rs := ResultsOf(remote);
    CompleteIffAllFiltered(vin, FilterResults(rs));
    assert KeyAttributes <= FilterResults(rs).Keys <==> MentionsAll(rs);
  }

  /** A lookup that answered leaves the VIN in the store, and looking it up
      again answers with the same attributes, now marked as cached, whatever
      the decoder would say. */
  lemma LookupThenHit(store: map<string, VinRecord>, vin: string, remote: DecodeOutcome, again: DecodeOutcome)
    requires Lookup(store, vin, remote).response.Success?
    ensures var o := Lookup(store, vin, remote);
            Lookup(o.store, vin, again) == Outcome(Success(o.response.value.(cachedResult := true)), o.store)
  {
    var o := Lookup(store, vin, remote);
    assert vin in o.store;
  }

  /** Every response names the VIN that was asked for, and the store stays
      keyed by VIN. */
  lemma LookupEchoesVin(store: map<string, VinRecord>, vin: string, remote: DecodeOutcome)
    requires KeyedByVin(store)
    ensures Lookup(store, vin, remote).response.Success? ==> Lookup(store, vin, remote).response.value.vinRequested == vin
    ensures KeyedByVin(Lookup(store, vin, remote).store)
  {
  }

  /** As written, a decoded answer with a key attribute left out is stored
      before the response is refused, and from then on every lookup of that
      VIN hits the partial record and fails, whatever the decoder says. */
  lemma PartialRecordPoisonsCache(store: map<string, VinRecord>, vin: string, remote: DecodeOutcome, again: DecodeOutcome)
    requires IsValidVin(vin) && vin !in store && remote.Decoded? && !MentionsAll(ResultsOf(remote))
    ensures var o := Lookup(store, vin, remote);
            && o.response == Failure(ResponseValidationError)
            && vin in o.store
            && Lookup(o.store, vin, again).response == Failure(ResponseValidationError)
  {
    LookupMiss(store, vin, remote);
    var o := Lookup(store, vin, remote);
    LookupHit(o.store, vin, again, again);
  }

  /** The case for the VIN of the tests and an answer holding only Make
      "BMW" and an empty Model. */
  lemma PartialRecordExample(again: DecodeOutcome)
    ensures var o := Lookup(map[], "testvinabcde12345", Decoded(Some([Item("Make", "BMW"), Item("Model", "")])));
            && o.response == Failure(ResponseValidationError)
            && "testvinabcde12345" in o.store
            && Lookup(o.store, "testvinabcde12345", again).response == Failure(ResponseValidationError)
  {
    var rs := [Item("Make", "BMW"), Item("Model", "")];
    assert IsValidVin("testvinabcde12345") by { DeleteRejectsTestVin(); }
    assert !Mentions(rs, "Model Year") by { assert rs[0].variable != "Model Year" && rs[1].variable != "Model Year"; }
    PartialRecordPoisonsCache(map[], "testvinabcde12345", Decoded(Some(rs)), again);
  }

  /** The corrected lookup answers "VIN not found" and stores nothing when
      the extraction fails. */
  lemma CheckedLookupNotFound(store: map<string, VinRecord>, vin: string, remote: DecodeOutcome)
    requires IsValidVin(vin) && vin !in store && remote.Decoded? && Extracted(ResultsOf(remote)).Failure?
    ensures CheckedLookup(store, vin, remote) == Outcome(Failure(NotFound), store)
  {
  }

  /** The same answer as in PartialRecordExample, through the corrected
      lookup: "VIN not found", and nothing is stored. */
  lemma CheckedLookupRefusesPartial()
    ensures CheckedLookup(map[], "testvinabcde12345", Decoded(Some([Item("Make", "BMW"), Item("Model", "")])))
            == Outcome(Failure(NotFound), map[])
  {
    var rs := [Item("Make", "BMW"), Item("Model", "")];
    assert IsValidVin("testvinabcde12345") by { DeleteRejectsTestVin(); }
    assert Extracted(rs) == Failure(VinNotFound) by {
      assert !Mentions(rs[..1], "Model Year") by { assert rs[..1] == [rs[0]]; }
      ExtractedStopsAtEmptyValue(rs, 1);
    }
    CheckedLookupNotFound(map[], "testvinabcde12345", Decoded(Some(rs)));
  }

  /** The corrected lookup keeps every stored record complete, and so never
      fails on building the response. */
  lemma CheckedLookupStoresOnlyComplete(store: map<string, VinRecord>, vin: string, remote: DecodeOutcome)
    requires forall k :: k in store ==> Complete(store[k])
    ensures var o := CheckedLookup(store, vin, remote);
            && (forall k :: k in o.store ==> Complete(o.store[k]))
            && o.response != Failure(ResponseValidationError)
  {
    if IsValidVin(vin) && vin !in store && remote.Decoded? {
      var rs := ResultsOf(remote);
      ExtractedSuccessShape(rs);
      if Extracted(rs).Success? {
        CompleteIffAllFiltered(vin, Extracted(rs).value);
      }
    }
  }

  /** The corrected lookup stores nothing unless the extraction succeeded,
      agrees with the original one whenever each key attribute comes once
      with a value, and otherwise (an attribute missing or empty) answers
      "VIN not found" without storing. */
  lemma CheckedLookupAgrees(store: map<string, VinRecord>, vin: string, remote: DecodeOutcome)
    requires remote.Decoded? && UniqueKeys(ResultsOf(remote))
    ensures MentionsAll(ResultsOf(remote)) && NoEmptyKeyValue(ResultsOf(remote)) ==>
              CheckedLookup(store, vin, remote) == Lookup(store, vin, remote)
    ensures IsValidVin(vin) && vin !in store &&
            !(MentionsAll(ResultsOf(remote)) && NoEmptyKeyValue(ResultsOf(remote))) ==>
              CheckedLookup(store, vin, remote) == Outcome(Failure(NotFound), store)
  {
    ExtractedUnique(ResultsOf(remote));
  }

  /** With the corrected lookup, too, a VIN that was answered is served from
      the store the next time. */
  lemma CheckedLookupThenHit(store: map<string, VinRecord>, vin: string, remote: DecodeOutcome, again: DecodeOutcome)
    requires CheckedLookup(store, vin, remote).response.Success?
    ensures var o := CheckedLookup(store, vin, remote);
            CheckedLookup(o.store, vin, again) == Outcome(Success(o.response.value.(cachedResult := true)), o.store)
  {
    var o := CheckedLookup(store, vin, remote);
    assert vin in o.store;
  }

  /** test_add_to_cache_existing_vin: a stored BMW X5 is served from the
      store, marked as cached. */
  lemma ExistingVinTest(remote: DecodeOutcome)
    ensures Lookup(map["testvinabcde12345" := VinRecord("testvinabcde12345", Some("BMW"), Some("X5"), Some("2022"), Some("SUV"))],
                   "testvinabcde12345", remote).response
            == Success(PostResponse("testvinabcde12345", "BMW", "X5", "2022", "SUV", true))
  {
    assert IsValidVin("testvinabcde12345") by { DeleteRejectsTestVin(); }
  }

  /** test_add_to_cache_new_vin: on an empty store the decoded Audi S7 is
      returned, marked as not cached, and stored. */
  lemma NewVinTest()
    ensures var o := Lookup(map[], "testvin12345abcde", Decoded(Some([Item("Make", "Audi"), Item("Model", "S7"),
                                                         Item("Model Year", "2022"), Item("Body Class", "Sedan")])));
            && o.response == Success(PostResponse("testvin12345abcde", "Audi", "S7", "2022", "Sedan", false))
            && o.store == map["testvin12345abcde" := VinRecord("testvin12345abcde", Some("Audi"), Some("S7"), Some("2022"), Some("Sedan"))]
  {
    assert IsValidVin("testvin12345abcde");
    FilterFourAttributes("Audi", "S7", "2022", "Sedan");
  }
}
