# VIN lookup cache, modelled in Dafny

The service answers `POST /lookup` with the make, model, model year and body
class of a Vehicle Identification Number (VIN). It first looks in its
`vin_records` table. On a miss it asks NHTSA's vPIC decoder, keeps the four
key attributes of the answer, stores a new record and returns it. The request
and response models validate the VIN format. This project models that core:

- `wrappers.dfy`, module `Wrappers`: `Option` (a Python value that may be
  `None`) and `Result` (an operation that returns or raises).
- `vin_app_models.dfy`, module `VinAppModels`: the pydantic models of
  `vin_app/models.py`. It holds Python's `str.isalnum` on ASCII, the
  `VinPostRequest` validator (`ValidateVin`) and the `VinDeleteRequest`
  validator as written (`DeleteRequestValidateVin`). It also holds the
  `VinPostResponse` and `VinDeleteResponse` shapes, and the construction of a
  `VinPostResponse`, which fails when an attribute is `None`.
- `models.dfy`, module `VinTable`: the SQLAlchemy `Vin` row of `models.py` and
  its `validate_vin`, as written.
- `decode.dfy`, module `Decode`: the decoder's `Results` entries, the
  `VinRecord` row of `vin_app/db.py`, the dict comprehension of `main.py:36`
  (`FilterResults`) and the record construction of `main.py:38-44`
  (`NewRecord`).
- `extraction.dfy`, module `Extraction`: `process_result`, which the tests
  import but `main.py` does not contain. It is modelled from
  `tests/test_main.py:51-88` only and is labelled test-derived. The method
  `ProcessResult` is a loop proved equal to the scan function `Extracted`.
- `lookup.dfy`, module `LookupService`: `lookup_vin`. The class `VinCache`
  holds the table as a `map` field. Its method `LookupVin` does what
  `main.py:10-55` does, and is proved equal to the function `Lookup`. The
  lemmas about `Lookup` state the cache-aside properties. `CheckedLookup` and
  `CheckedLookupVin` are the corrected lookup of Finding 3.

The remote decoder is an input of type `DecodeOutcome`. `DecodeFailed` stands
for every exception caught at `main.py:32`. `Decoded(results)` stands for a
decoded JSON body; its `results` is `None` when the body has no `"Results"`
key, which `data.get("Results", [])` reads as the empty list.

Where the code and the service's design notes disagree, the model follows the
code:

- The design says a record is stored only when all four attributes were
  extracted. `lookup_vin` stores whatever the filter produced, and only then
  builds the response (Finding 3).
- The design says a recognised attribute with an empty value fails the lookup
  with "VIN not found". `lookup_vin` has no such check. An empty value is
  stored and returned as an empty string. That check exists only in the
  test-derived `ProcessResult`, and in `CheckedLookup`, which uses it.
- `main.py:36` filters with `key_attributes`, which `main.py` does not
  define. The model takes it to be the four attributes the tests expect:
  `Make`, `Model`, `Model Year`, `Body Class`.
- Python's dict comprehension keeps the last entry for a repeated `Variable`.
  `FilterLastWins` states this.

The tests at `tests/test_main.py:103-143` call `add_to_cache`, which `main.py`
does not define. `ExistingVinTest` and `NewVinTest` state those tests'
expectations about `lookup_vin`.

## Model

| member | source | states |
|---|---|---|
| VinAppModels.IsAlnum | vin_app/models.py:11 | `str.isalnum`: true exactly when the string is non-empty and every character is a letter or a digit |
| VinAppModels.ValidateVin | vin_app/models.py:9-13 | the lookup request accepts a VIN exactly when it has 17 characters, all alphanumeric, and returns it unchanged |
| VinAppModels.DeleteRequestValidateVin | vin_app/models.py:28-32 | as written, the delete request accepts exactly the non-empty alphanumeric strings whose length is NOT 17, and returns them unchanged |
| VinAppModels.BuildPostResponse | vin_app/models.py:16-22 | a `VinPostResponse` can be built exactly when all four attributes are present, and it then carries them, the requested VIN and the cached flag |
| VinAppModels.DeleteRejectsEveryVinLength | vin_app/models.py:30-31 | the delete validator rejects every 17-character string |
| VinAppModels.PostAndDeleteDisjoint | vin_app/models.py:9-32 | no string is accepted by both the lookup and the delete request |
| VinAppModels.DeleteRejectsTestVin | tests/test_main.py:91-100 | the VIN of the delete test is a valid VIN, the lookup validator accepts it, and the delete validator rejects it |
| VinTable.VinRowValidateVin | models.py:14-18 | as written, the row validator accepts exactly the non-empty alphanumeric strings whose length is not 17, and rejects every 17-character string |
| VinTable.NewVinRow | models.py:5-18 | a row is created exactly when its vin passes the validator, and holds the given columns |
| VinTable.VinRowRejectsNonAlnum | models.py:16-17 | the row validator rejects any string with a non-alphanumeric character, and the empty string |
| VinTable.NoValidVinFitsTheTable | models.py:8-18 | no valid 17-character VIN can be stored in the table, although its key column is `String(17)` |
| VinTable.VinRowAgreesWithDelete | models.py:16 | the row validator gives the same result as the delete request validator on every string |
| Decode.ResultsOf | main.py:35 | `data.get("Results", [])`: the decoded Results list, or the empty list when the body has no `"Results"` key |
| Decode.Get | main.py:40-43 | `dict.get`: the value when the key is present, `None` otherwise |
| Decode.FilterResults | main.py:35-36 | the filtered dict has a key exactly for each key attribute that some entry names |
| Decode.FilterSnoc | main.py:36 | one more entry overwrites the attribute's value if it is a key attribute and is dropped otherwise |
| Decode.FilterLastWins | main.py:36 | the value kept for an attribute is that of its last entry |
| Decode.FilterSkipsUnrecognised | main.py:36 | an entry whose Variable is not a key attribute changes nothing, wherever it stands |
| Decode.FilterFourAttributes | main.py:36 | the four key attributes, once each, filter to exactly their four values |
| Decode.NewRecord | main.py:38-44 | the new record holds the requested VIN and, for each key attribute, the filtered value or `None` |
| Decode.RecordFromResults | main.py:36-43 | a record field is `None` exactly when no entry names its attribute, and otherwise holds the last entry's value |
| Extraction.ProcessResult | tests/test_main.py:51-88 | (test-derived) the extraction loop returns what the scan `Extracted` returns |
| Extraction.ExtractedSuccessShape | tests/test_main.py:61-68 | (test-derived) a successful extraction holds exactly the four key attributes, with non-empty values taken from entries for them |
| Extraction.ExtractedStopsAtEmptyValue | tests/test_main.py:71-88 | (test-derived) an empty key-attribute value met before all four attributes were seen gives "VIN not found" |
| Extraction.ExtractedFailsWhenMissing | tests/test_main.py:61-68 | (test-derived) an attribute no entry names makes the extraction fail |
| Extraction.ExtractedUnique | tests/test_main.py:51-88 | (test-derived) with each key attribute at most once: success exactly when all four appear with values, the result is then the filtered dict, and an empty value anywhere gives "VIN not found" |
| Extraction.ProcessResultTest | tests/test_main.py:51-68 | (test-derived) the BMW answer extracts to exactly its four values |
| Extraction.ProcessResultNullValueTest | tests/test_main.py:71-88 | (test-derived) the BMW answer with an empty Model gives "VIN not found" |
| LookupService.Respond | main.py:18-25 | the response exists exactly when the record is complete, and then carries the requested VIN, the record's four attributes and the cached flag; otherwise it is a validation error |
| LookupService.VinCache.constructor | vin_app/db.py:18-28 | on a fresh database the table starts empty, and every record is keyed by its VIN |
| LookupService.VinCache.LookupVin | main.py:10-55 | the response and the new table are those of `Lookup` on the old table; every record stays keyed by its VIN, so the record left under the requested VIN is a record for that VIN |
| LookupService.VinCache.CheckedLookupVin | main.py:27-46 | the corrected lookup: the response and the new table are those of `CheckedLookup`, and the record left under the requested VIN is a record for that VIN |
| LookupService.CompleteIffAllFiltered | main.py:38-44 | a new record is complete exactly when the filtered dict holds all four key attributes |
| LookupService.LookupRejectsInvalid | main.py:10-11 | a VIN the request validator refuses fails with an invalid-VIN error, and the table is unchanged |
| LookupService.LookupHit | main.py:15-25 | on a hit the table is unchanged, the decoder's answer plays no part, and the stored record's attributes are returned with `cached_result` true when complete |
| LookupService.LookupDecodeFailure | main.py:27-33 | a failed fetch gives the HTTP 500 decoding error and the table is unchanged |
| LookupService.LookupMiss | main.py:35-55 | on a miss the table gains exactly the new filtered record, every other record is unchanged, and the response exists exactly when all four attributes were decoded, and then carries the requested VIN, the new record's four values and `cached_result` false |
| LookupService.LookupThenHit | main.py:15-55 | after a lookup that answered, a second lookup of the same VIN answers from the table with the same attributes and `cached_result` true |
| LookupService.LookupEchoesVin | main.py:19 | every response names the requested VIN, and the table stays keyed by VIN |
| LookupService.PartialRecordPoisonsCache | main.py:38-55 | as written, an answer missing an attribute fails the lookup yet stores the record, and every later lookup of that VIN fails too |
| LookupService.PartialRecordExample | main.py:38-55 | the same, for the tests' VIN and an answer holding only Make "BMW" and an empty Model |
| LookupService.CheckedLookupNotFound | main.py:27-46 | in the corrected lookup, a failed extraction gives "VIN not found" and leaves the table unchanged |
| LookupService.CheckedLookupRefusesPartial | tests/test_main.py:71-88 | the corrected lookup answers that case with "VIN not found" and stores nothing |
| LookupService.CheckedLookupStoresOnlyComplete | main.py:38-46 | the corrected lookup keeps every stored record complete, so it never fails while building the response |
| LookupService.CheckedLookupAgrees | main.py:35-46 | with each key attribute at most once, the corrected lookup equals `lookup_vin` when all four appear with values, and when an attribute is missing or has an empty value it fails with "VIN not found" without storing |
| LookupService.CheckedLookupThenHit | main.py:15-46 | after a corrected lookup that answered, the next lookup of that VIN is served from the table, marked cached |
| LookupService.ExistingVinTest | tests/test_main.py:103-116 | a stored BMW X5 is returned with `cached_result` true |
| LookupService.NewVinTest | tests/test_main.py:119-143 | on an empty table the decoded Audi S7 is returned with `cached_result` false and stored |

## Findings

| source | as written | input that shows it | evidently intended | confidence | as-written member | corrected member |
|---|---|---|---|---|---|---|
| vin_app/models.py:30 | `not len(vin) != 17 or not vin.isalnum()` rejects every 17-character VIN and accepts other lengths | `"testvinabcde12345"`, the delete test's VIN | the rule of line 11: 17 alphanumeric characters | high; not executed | VinAppModels.DeleteRejectsTestVin | VinAppModels.ValidateVin |
| models.py:16 | the same doubly negated test, so no valid VIN can ever be assigned to a `Vin` row | any valid VIN, e.g. `"testvinabcde12345"` | the rule of vin_app/models.py:11 | high; not executed | VinTable.NoValidVinFitsTheTable | VinAppModels.ValidateVin |
| main.py:38-55 | the record is added and committed before the `VinPostResponse` is built, so an answer missing an attribute stores a partial record, and every later lookup of that VIN fails on it | VIN `"testvinabcde12345"`, Results `[Make: "BMW", Model: ""]` | store nothing and answer "VIN not found" | medium; not executed | LookupService.PartialRecordPoisonsCache | LookupService.CheckedLookupStoresOnlyComplete |

## Left out

- The HTTP fetch (`main.py:28-31`): the URL, `http_client` and its exception types. These are network I/O. The decoder's answer is the input `DecodeOutcome`, and every caught exception is `DecodeFailed`.
- FastAPI routing, `response_model`, the mapping of a validator's `ValueError` to HTTP 422, and `uvicorn.run` (`main.py:58-61`). A refused request is the `InvalidVin` error.
- The session: `SessionLocal()` is never closed in `lookup_vin` (`main.py:12`). A failing `db.commit()` is not modelled. This is resource management and opaque persistence failure.
- Concurrent lookups of the same VIN, and a duplicate-key insert between them. The model is sequential.
- `str.isalnum` beyond ASCII: `IsAlnumChar` accepts ASCII letters and digits only.
- JSON shapes other than a list of `{"Variable": str, "Value": str}` entries. A `null` Value, a missing key in an entry (a `KeyError`) and a body that is not an object are not modelled; each entry is two strings.
- `vin_app/db.py` and `db.py` (engines, sessions, `get_db`, `create_all`). This is ORM plumbing. Only `VinRecord`'s five columns are kept, and the `String(17)` length is not enforced.
- LookupService.VinCache.constructor: models only a fresh database. `create_all` keeps the rows of an existing `./vin_records.db`, and those rows are not modelled.
- The `NameError` that `key_attributes` would raise at `main.py:36`. The model uses the four attributes the tests expect.
- `fetch_data`, `remove_from_cache`, `add_to_cache` and `export_cache` (`tests/test_main.py:8-14`). They are not in `main.py`. The Parquet export would wrap a foreign codec.
- Extraction.ProcessResult: its source is not part of this model. It stops when all four DISTINCT attributes hold values. A counter of recorded entries would stop earlier on a repeated attribute.
