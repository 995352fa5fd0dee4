/**
 Feature-row assembly: the three user readings are merged with fixed levels
 for the pollutants the user does not enter, and the result is laid out in
 the column order the classifier was trained with.
 */
module Assembly {
  import opened Dicts

  /** The three readings the user enters, in µg/m³. */
  datatype Readings = Readings(pm25: real, pm10: real, no2: real)

  /** The input widgets accept only non-negative readings. */
  predicate WithinInputBounds(u: Readings)
  {
    u.pm25 >= 0.0 && u.pm10 >= 0.0 && u.no2 >= 0.0
  }

  /** The seven pollutants the program knows, in the insertion order of its
      table of values. */
  const PollutantNames: seq<string> := ["PM2.5", "PM10", "NO2", "OZONE", "SO2", "CO", "NH3"]

  /** The program's table of pollutant values: the user's readings followed by
      the assumed average levels of ozone, SO2, CO and NH3. */
  function DefaultValues(u: Readings): (d: Dict<string, real>)
    ensures Keys(d) == PollutantNames
  {
    [("PM2.5", u.pm25), ("PM10", u.pm10), ("NO2", u.no2),
     ("OZONE", 30.0), ("SO2", 10.0), ("CO", 0.5), ("NH3", 5.0)]
  }

  /** The resolution rule for one feature name, stated independently of the
      table: a user reading for PM2.5, PM10 and NO2; a fixed level for OZONE,
      SO2, CO and NH3; 0 for every other name. */
  function Resolve(u: Readings, name: string): real
  {
    if name == "PM2.5" then u.pm25
    else if name == "PM10" then u.pm10
    else if name == "NO2" then u.no2
    else if name == "OZONE" then 30.0
    else if name == "SO2" then 10.0
    else if name == "CO" then 0.5
    else if name == "NH3" then 5.0
    else 0.0
  }

  /** Every entry of the table is a known pollutant with the value the rule
      gives it. */
  lemma DefaultValuesFollowRule(u: Readings)
    ensures forall i :: 0 <= i < |DefaultValues(u)| ==>
      DefaultValues(u)[i] == (PollutantNames[i], Resolve(u, PollutantNames[i]))
  {
  }

  /** `default_values.get(name, 0)` is the resolution rule. */
  lemma LookupFollowsRule(u: Readings, name: string)
    ensures Get(DefaultValues(u), name, 0.0) == Resolve(u, name)
  {
    var d := DefaultValues(u);
    assert Distinct(Keys(d));
    if name in PollutantNames {
      var i :| 0 <= i < |PollutantNames| && PollutantNames[i] == name;
      DefaultValuesFollowRule(u);
      assert d[i] == (name, Resolve(u, name));
      GetEntry(d, name, Resolve(u, name), 0.0);
    }
  }

  /** `{f: default_values.get(f, 0) for f in features}`: one entry per
      distinct name of `features`, in order of first occurrence, each holding
      the value the resolution rule gives its name. */
  function AssembleRow(u: Readings, features: seq<string>): (row: Dict<string, real>)
    ensures Distinct(Keys(row))
    ensures Keys(row) == Dedup(features)
    ensures forall i :: 0 <= i < |row| ==> row[i].1 == Resolve(u, row[i].0)
  {
    if |features| == 0 then []
    else
      var init := features[..|features| - 1];
      var f := features[|features| - 1];
      var prefix := AssembleRow(u, init);
      LookupFollowsRule(u, f);
      Put(prefix, f, Get(DefaultValues(u), f, 0.0))
  }

  /** For a feature list without repetitions (the shape the classifier's
      column list has) the row has exactly one entry per feature, in the
      feature order, and no other entry. */
  lemma RowFollowsFeatures(u: Readings, features: seq<string>)
    requires Distinct(features)
    ensures |AssembleRow(u, features)| == |features|
    ensures forall i :: 0 <= i < |features| ==>
      AssembleRow(u, features)[i] == (features[i], Resolve(u, features[i]))
  {
    var row := AssembleRow(u, features);
    DedupOfDistinct(features);
    assert Keys(row) == features;
    forall i | 0 <= i < |features|
      ensures row[i] == (features[i], Resolve(u, features[i]))
    {
      assert Keys(row)[i] == row[i].0;
    }
  }

  /** Looking a feature up in the assembled row yields the resolved value,
      whatever repetitions the feature list has. */
  lemma RowLookup(u: Readings, features: seq<string>, name: string)
    requires name in features
    ensures (name, Resolve(u, name)) in AssembleRow(u, features)
    ensures Get(AssembleRow(u, features), name, 0.0) == Resolve(u, name)
  {
    var row := AssembleRow(u, features);
    assert name in Keys(row);
    var i :| 0 <= i < |row| && Keys(row)[i] == name;
    assert row[i] == (name, Resolve(u, name));
    GetEntry(row, name, Resolve(u, name), 0.0);
  }
}
