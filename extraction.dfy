/** process_result, the extractor the tests call (tests/test_main.py:51-88).
    Its code is not part of this model: the contract is taken from the two
    tests. The scan reads the Results entries in order, fails with "VIN not
    found" on a key attribute whose value is empty, and stops as soon as all
    four key attributes hold a value. */
module Extraction {
  import opened Wrappers
  import opened Decode

  /** HTTP 404 "VIN not found", or a scan that ended before all four key
      attributes were seen. */
  datatype ExtractError = VinNotFound | Incomplete

  /** Every key attribute is named by some entry. */
  predicate MentionsAll(rs: seq<Item>)
  {
    forall k :: k in KeyAttributes ==> Mentions(rs, k)
  }

  /** No key attribute is named by two entries. */
  predicate UniqueKeys(rs: seq<Item>)
  {
    forall i, j :: 0 <= i < j < |rs| && rs[i].variable in KeyAttributes ==> rs[j].variable != rs[i].variable
  }

  /** No key attribute comes with an empty value. */
  predicate NoEmptyKeyValue(rs: seq<Item>)
  {
    forall i :: 0 <= i < |rs| && rs[i].variable in KeyAttributes ==> rs[i].value != ""
  }

  /** Every value in m is the value of an entry of rs for the same attribute. */
  predicate FromResults(rs: seq<Item>, m: map<string, string>)
  {
    forall k :: k in m ==> exists j :: 0 <= j < |rs| && rs[j].variable == k && rs[j].value == m[k]
  }

  /** The scan from position i, with found holding what has been recorded. */
  function Scan(rs: seq<Item>, i: nat, found: map<string, string>): Result<map<string, string>, ExtractError>
    requires i <= |rs|
    decreases |rs| - i
  {
    if found.Keys == KeyAttributes then Success(found)
    else if i == |rs| then Failure(Incomplete)
    else if rs[i].variable !in KeyAttributes then Scan(rs, i + 1, found)
    else if rs[i].value == "" then Failure(VinNotFound)
    else Scan(rs, i + 1, found[rs[i].variable := rs[i].value])
  }

  /** The whole extraction: a scan from the start with nothing recorded. */
  function Extracted(rs: seq<Item>): Result<map<string, string>, ExtractError>
  {
    Scan(rs, 0, map[])
  }

  /** The extractor as a loop over the entries. */
  method ProcessResult(rs: seq<Item>) returns (r: Result<map<string, string>, ExtractError>)
    ensures r == Extracted(rs)
  {
    var found: map<string, string> := map[];
    var i := 0;
    while i < |rs| && found.Keys != KeyAttributes
      invariant i <= |rs|
      invariant Scan(rs, i, found) == Extracted(rs)
      decreases |rs| - i
    {
      var item := rs[i];
      if item.variable in KeyAttributes {
        if item.value == "" {
          return Failure(VinNotFound);
        }
        found := found[item.variable := item.value];
      }
      i := i + 1;
    }
    if found.Keys == KeyAttributes {
      r := Success(found);
    } else {
      r := Failure(Incomplete);
    }
  }

  /** A scan that started from recorded values taken from the entries ends,
      if it succeeds, with the four key attributes and non-empty values. */
  lemma {:induction false} ScanSuccessShape(rs: seq<Item>, i: nat, found: map<string, string>)
    requires i <= |rs|
    requires found.Keys <= KeyAttributes && FromResults(rs, found)
    requires forall k :: k in found ==> found[k] != ""
    ensures Scan(rs, i, found).Success? ==>
              var m := Scan(rs, i, found).value;
              m.Keys == KeyAttributes && FromResults(rs, m) && forall k :: k in m ==> m[k] != ""
    decreases |rs| - i
  {
    if found.Keys == KeyAttributes || i == |rs| {
    } else if rs[i].variable !in KeyAttributes {
      ScanSuccessShape(rs, i + 1, found);
    } else if rs[i].value != "" {
      var found' := found[rs[i].variable := rs[i].value];
      assert FromResults(rs, found') by {
        forall k | k in found'
          ensures exists j :: 0 <= j < |rs| && rs[j].variable == k && rs[j].value == found'[k]
        {
          if k == rs[i].variable {
            assert rs[i].variable == k && rs[i].value == found'[k];
          }
        }
      }
      ScanSuccessShape(rs, i + 1, found');
    }
  }

  /** A successful extraction holds exactly the four key attributes, each
      with a non-empty value taken from an entry for that attribute. */
  lemma ExtractedSuccessShape(rs: seq<Item>)
    ensures Extracted(rs).Success? ==>
              var m := Extracted(rs).value;
              m.Keys == KeyAttributes && FromResults(rs, m) && forall k :: k in m ==> m[k] != ""
  {
    ScanSuccessShape(rs, 0, map[]);
  }

  /** Naming an attribute in a prefix means naming it in every longer prefix. */
  lemma MentionsInLongerPrefix(rs: seq<Item>, a: nat, b: nat, k: string)
    requires a <= b <= |rs|
    ensures Mentions(rs[..a], k) ==> Mentions(rs[..b], k)
  {
    if Mentions(rs[..a], k) {
      var j :| 0 <= j < a && rs[..a][j].variable == k;
      assert rs[..b][j] == rs[j];
    }
  }

  /** Entries after position i that are not key attributes leave the
      filtered dict as it was after the first i entries. */
  lemma {:induction false} FilterIgnoresTail(rs: seq<Item>, i: nat)
    requires i <= |rs|
    requires forall j :: i <= j < |rs| ==> rs[j].variable !in KeyAttributes
    ensures FilterResults(rs) == FilterResults(rs[..i])
    decreases |rs| - i
  {
    if i < |rs| {
      var front := rs[..|rs| - 1];
      FilterIgnoresTail(front, i);
      FilterSnoc(front, rs[|rs| - 1]);
      assert front + [rs[|rs| - 1]] == rs;
      assert front[..i] == rs[..i];
    } else {
      assert rs[..i] == rs;
    }
  }

  /** When each key attribute comes once with a value, a scan that has
      recorded the filtered prefix ends with the filtered whole. */
  lemma {:induction false} ScanComplete(rs: seq<Item>, i: nat, found: map<string, string>)
    requires i <= |rs| && found == FilterResults(rs[..i])
    requires MentionsAll(rs) && UniqueKeys(rs) && NoEmptyKeyValue(rs)
    ensures Scan(rs, i, found) == Success(FilterResults(rs))
    decreases |rs| - i
  {
    if i == |rs| {
      assert rs[..i] == rs;
      assert found.Keys == KeyAttributes;
    }
    if found.Keys == KeyAttributes {
      forall j | i <= j < |rs| ensures rs[j].variable !in KeyAttributes {
        var v := rs[j].variable;
        forall j' | 0 <= j' < i ensures !(v in KeyAttributes && rs[..i][j'].variable == v) {
          assert rs[..i][j'] == rs[j'];
        }
      }
      FilterIgnoresTail(rs, i);
    } else {
      assert rs[..i + 1] == rs[..i] + [rs[i]];
      FilterSnoc(rs[..i], rs[i]);
      if rs[i].variable !in KeyAttributes {
        ScanComplete(rs, i + 1, found);
      } else {
        ScanComplete(rs, i + 1, found[rs[i].variable := rs[i].value]);
      }
    }
  }

  /** A scan that has recorded only attributes named before j reaches the
      empty value at i and fails there. */
  lemma {:induction false} ScanStopsAtEmptyValue(rs: seq<Item>, i: nat, j: nat, found: map<string, string>)
    requires j <= i < |rs| && rs[i].variable in KeyAttributes && rs[i].value == ""
    requires !MentionsAll(rs[..i])
    requires forall k :: k in found ==> Mentions(rs[..j], k)
    ensures Scan(rs, j, found) == Failure(VinNotFound)
    decreases i - j
  {
    var missing :| missing in KeyAttributes && !Mentions(rs[..i], missing);
    MentionsInLongerPrefix(rs, j, i, missing);
    assert missing !in found.Keys;
    if j < i && rs[j].variable !in KeyAttributes {
      forall k | k in found ensures Mentions(rs[..j + 1], k) {
        MentionsInLongerPrefix(rs, j, j + 1, k);
      }
      ScanStopsAtEmptyValue(rs, i, j + 1, found);
    } else if j < i && rs[j].value != "" {
      var found' := found[rs[j].variable := rs[j].value];
      forall k | k in found' ensures Mentions(rs[..j + 1], k) {
        if k in found {
          MentionsInLongerPrefix(rs, j, j + 1, k);
        } else {
          assert rs[..j + 1][j].variable == k;
        }
      }
      ScanStopsAtEmptyValue(rs, i, j + 1, found');
    }
  }

  /** A scan cannot succeed when some key attribute is never named. */
  lemma {:induction false} ScanFailsWhenMissing(rs: seq<Item>, j: nat, found: map<string, string>)
    requires j <= |rs| && !MentionsAll(rs)
    requires forall k :: k in found ==> Mentions(rs[..j], k)
    ensures Scan(rs, j, found).Failure?
    decreases |rs| - j
  {
    var missing :| missing in KeyAttributes && !Mentions(rs, missing);
    MentionsInLongerPrefix(rs, j, |rs|, missing);
    assert rs[..|rs|] == rs;
    assert missing !in found.Keys;
    if j < |rs| && rs[j].variable !in KeyAttributes {
      forall k | k in found ensures Mentions(rs[..j + 1], k) {
        MentionsInLongerPrefix(rs, j, j + 1, k);
      }
      ScanFailsWhenMissing(rs, j + 1, found);
    } else if j < |rs| && rs[j].value != "" {
      var found' := found[rs[j].variable := rs[j].value];
      forall k | k in found' ensures Mentions(rs[..j + 1], k) {
        if k in found {
          MentionsInLongerPrefix(rs, j, j + 1, k);
        } else {
          assert rs[..j + 1][j].variable == k;
        }
      }
      ScanFailsWhenMissing(rs, j + 1, found');
    }
  }

  /** A key attribute with an empty value, met before all four attributes
      have been seen, makes the extraction fail with "VIN not found". */
  lemma ExtractedStopsAtEmptyValue(rs: seq<Item>, i: nat)
    requires i < |rs| && rs[i].variable in KeyAttributes && rs[i].value == ""
    requires !MentionsAll(rs[..i])
    ensures Extracted(rs) == Failure(VinNotFound)
  {
    ScanStopsAtEmptyValue(rs, i, 0, map[]);
  }

  /** A key attribute that no entry names makes the extraction fail. */
  lemma ExtractedFailsWhenMissing(rs: seq<Item>)
    requires !MentionsAll(rs)
    ensures Extracted(rs).Failure?
  {
    ScanFailsWhenMissing(rs, 0, map[]);
  }

  /** When each key attribute appears at most once, in any order and among
      any other entries: the extraction succeeds exactly when all four appear
      with non-empty values, and then returns the filtered values; an empty
      value anywhere gives "VIN not found". */
  lemma ExtractedUnique(rs: seq<Item>)
    requires UniqueKeys(rs)
    ensures Extracted(rs).Success? <==> MentionsAll(rs) && NoEmptyKeyValue(rs)
    ensures Extracted(rs).Success? ==> Extracted(rs).value == FilterResults(rs)
    ensures !NoEmptyKeyValue(rs) ==> Extracted(rs) == Failure(VinNotFound)
  {
    if !NoEmptyKeyValue(rs) {
      var i :| 0 <= i < |rs| && rs[i].variable in KeyAttributes && rs[i].value == "";
      forall j | 0 <= j < i ensures rs[..i][j].variable != rs[i].variable {
        assert rs[..i][j] == rs[j];
      }
      ExtractedStopsAtEmptyValue(rs, i);
    } else if !MentionsAll(rs) {
      ExtractedFailsWhenMissing(rs);
    } else {
      assert rs[..0] == [];
      ScanComplete(rs, 0, map[]);
    }
  }

  /** test_process_result: four key attributes with values give exactly
      those four values. */
  lemma ProcessResultTest()
    ensures Extracted([Item("Make", "BMW"), Item("Model", "3"), Item("Model Year", "2023"), Item("Body Class", "Coupe")])
            == Success(map["Make" := "BMW", "Model" := "3", "Model Year" := "2023", "Body Class" := "Coupe"])
  {
  }

  /** test_process_result_null_value: an empty Model gives "VIN not found". */
  lemma ProcessResultNullValueTest()
    ensures Extracted([Item("Make", "BMW"), Item("Model", ""), Item("Model Year", "2023"), Item("Body Class", "Coupe")])
            == Failure(VinNotFound)
  {
  }
}
