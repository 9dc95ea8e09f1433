/** The decoder's answer and what main.py keeps of it: the Results list is
    filtered down to the four key attributes (main.py:35-36) and turned into
    a VinRecord, the row type of vin_app/db.py (main.py:38-44). */
module Decode {
  import opened Wrappers

  /** One entry of the decoder's Results list: {"Variable": ..., "Value": ...}. */
  datatype Item = Item(variable: string, value: string)

  /** What the remote decoder gave back: a failure (an HTTP error, a bad
      status or a body that is not JSON), or a decoded JSON object whose
      "Results" key may be missing. */
  datatype DecodeOutcome = DecodeFailed | Decoded(results: Option<seq<Item>>)

  /** The attributes main.py keeps; the names the tests expect. */
  const KeyAttributes: set<string> := {"Make", "Model", "Model Year", "Body Class"}

  /** The row stored in vin_records: the VIN and four nullable columns. */
  datatype VinRecord = VinRecord(
    vin: string,
    make: Option<string>,
    model: Option<string>,
    modelYear: Option<string>,
    bodyClass: Option<string>)

  /** Some entry of rs names the attribute. */
  predicate Mentions(rs: seq<Item>, name: string)
  {
    exists i :: 0 <= i < |rs| && rs[i].variable == name
  }

  /** data.get("Results", []): a missing list reads as the empty one. */
  function ResultsOf(outcome: DecodeOutcome): (r: seq<Item>)
    requires outcome.Decoded?
    ensures outcome.results.Some? ==> r == outcome.results.value
    ensures outcome.results.None? ==> r == []
  {
    match outcome.results
    case Some(rs) => rs
    case None => []
  }

  /** dict.get: the value under a key, or None. */
  function Get(m: map<string, string>, key: string): (r: Option<string>)
    ensures r.Some? <==> key in m
    ensures r.Some? ==> r.value == m[key]
  {
    if key in m then Some(m[key]) else None
  }

  /** The dict comprehension of main.py:36, built left to right: only key
      attributes enter it, and a later entry for the same attribute
      overwrites an earlier one. */
  function FilterResults(rs: seq<Item>): (m: map<string, string>)
    ensures forall k :: k in m <==> k in KeyAttributes && Mentions(rs, k)
  {
    if rs == [] then map[]
    else
      var front := rs[..|rs| - 1];
      var last := rs[|rs| - 1];
      var m := FilterResults(front);
      assert forall k :: Mentions(rs, k) <==> Mentions(front, k) || last.variable == k by {
        forall k | Mentions(front, k) ensures Mentions(rs, k) {
          var i :| 0 <= i < |front| && front[i].variable == k;
          assert rs[i] == front[i];
        }
        forall k | Mentions(rs, k) && last.variable != k ensures Mentions(front, k) {
          var i :| 0 <= i < |rs| && rs[i].variable == k;
          assert i < |front| && front[i] == rs[i];
        }
      }
      if last.variable in KeyAttributes then m[last.variable := last.value] else m
  }

  /** The value kept for an attribute is the one of its last entry. */
  lemma {:induction false} FilterLastWins(rs: seq<Item>, i: nat)
    requires i < |rs| && rs[i].variable in KeyAttributes
    requires forall j :: i < j < |rs| ==> rs[j].variable != rs[i].variable
    ensures rs[i].variable in FilterResults(rs)
    ensures FilterResults(rs)[rs[i].variable] == rs[i].value
  {
    if i < |rs| - 1 {
      var front := rs[..|rs| - 1];
      FilterLastWins(front, i);
    }
  }

  /** Filtering one more entry: a key attribute is written over whatever the
      dict held for it, anything else is dropped. */
  lemma FilterSnoc(rs: seq<Item>, item: Item)
    ensures FilterResults(rs + [item]) ==
              if item.variable in KeyAttributes then FilterResults(rs)[item.variable := item.value]
              else FilterResults(rs)
  {
    var xs := rs + [item];
    assert xs[..|xs| - 1] == rs && xs[|xs| - 1] == item;
  }

  /** An entry whose Variable is not a key attribute has no effect on the
      filtered dict, wherever it stands. */
  lemma {:induction false} FilterSkipsUnrecognised(before: seq<Item>, item: Item, after: seq<Item>)
    requires item.variable !in KeyAttributes
    ensures FilterResults(before + [item] + after) == FilterResults(before + after)
  {
    if after == [] {
      assert before + [item] + after == before + [item];
      assert before + after == before;
      FilterSnoc(before, item);
    } else {
      var front := after[..|after| - 1];
      var last := after[|after| - 1];
      FilterSkipsUnrecognised(before, item, front);
      assert before + [item] + after == (before + [item] + front) + [last];
      assert before + after == (before + front) + [last];
      FilterSnoc(before + [item] + front, last);
      FilterSnoc(before + front, last);
    }
  }

  /** The field of a record that holds a key attribute. */
  function Attribute(rec: VinRecord, name: string): Option<string>
    requires name in KeyAttributes
  {
    if name == "Make" then rec.make
    else if name == "Model" then rec.model
    else if name == "Model Year" then rec.modelYear
    else rec.bodyClass
  }

  /** VinRecord(vin=..., make=filtered_data.get("Make"), ...): each field
      holds the filtered value of its attribute, or None. */
  function NewRecord(vin: string, filtered: map<string, string>): (r: VinRecord)
    ensures r.vin == vin
    ensures forall name :: name in KeyAttributes ==> Attribute(r, name) == Get(filtered, name)
  {
    VinRecord(vin, Get(filtered, "Make"), Get(filtered, "Model"),
              Get(filtered, "Model Year"), Get(filtered, "Body Class"))
  }

  /** A record built from a Results list has a field exactly for each key
      attribute the list mentions, holding the attribute's last value. */
  lemma RecordFromResults(vin: string, rs: seq<Item>, name: string)
    requires name in KeyAttributes
    ensures Attribute(NewRecord(vin, FilterResults(rs)), name).None? <==> !Mentions(rs, name)
    ensures forall i :: 0 <= i < |rs| && rs[i].variable == name && (forall j :: i < j < |rs| ==> rs[j].variable != name)
              ==> Attribute(NewRecord(vin, FilterResults(rs)), name) == Some(rs[i].value)
  {
    forall i | 0 <= i < |rs| && rs[i].variable == name && (forall j :: i < j < |rs| ==> rs[j].variable != name)
      ensures Attribute(NewRecord(vin, FilterResults(rs)), name) == Some(rs[i].value)
    {
      FilterLastWins(rs, i);
    }
  }

  /** A Results list that names the four key attributes once each, in the
      order the decoder sends them, filters to exactly their values. */
  lemma FilterFourAttributes(make: string, model: string, modelYear: string, bodyClass: string)
    ensures FilterResults([Item("Make", make), Item("Model", model), Item("Model Year", modelYear), Item("Body Class", bodyClass)])
            == map["Make" := make, "Model" := model, "Model Year" := modelYear, "Body Class" := bodyClass]
  {
    var rs := [Item("Make", make), Item("Model", model), Item("Model Year", modelYear), Item("Body Class", bodyClass)];
    assert FilterResults(rs[..1]) == map["Make" := make] by {
      FilterSnoc([], rs[0]);
      assert [] + [rs[0]] == rs[..1];
    }
    assert FilterResults(rs[..2]) == map["Make" := make, "Model" := model] by {
      FilterSnoc(rs[..1], rs[1]);
      assert rs[..1] + [rs[1]] == rs[..2];
    }
    assert FilterResults(rs[..3]) == map["Make" := make, "Model" := model, "Model Year" := modelYear] by {
      FilterSnoc(rs[..2], rs[2]);
      assert rs[..2] + [rs[2]] == rs[..3];
    }
    FilterSnoc(rs[..3], rs[3]);
    assert rs[..3] + [rs[3]] == rs;
  }
}
