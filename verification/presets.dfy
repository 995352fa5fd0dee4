/**
 City presets: named starting values for the three editable readings. A
 preset only initialises the input fields; the user may still change them.
 */
module Presets {
  import opened Dicts
  import opened Assembly
  import opened Presentation

  /** The three pollutants the user enters, in input order. */
  const EditableNames: seq<string> := ["PM2.5", "PM10", "NO2"]

  /** The preset table, in the order the city selector lists it. */
  const CityPresets: Dict<string, Dict<string, real>> := [
    ("Manual Input", [("PM2.5", 50.0), ("PM10", 80.0), ("NO2", 40.0)]),
    ("Delhi", [("PM2.5", 160.0), ("PM10", 220.0), ("NO2", 90.0)]),
    ("Mumbai", [("PM2.5", 80.0), ("PM10", 120.0), ("NO2", 45.0)]),
    ("Bengaluru", [("PM2.5", 55.0), ("PM10", 75.0), ("NO2", 30.0)]),
    ("Kolkata", [("PM2.5", 95.0), ("PM10", 140.0), ("NO2", 50.0)]),
    ("Chennai", [("PM2.5", 65.0), ("PM10", 90.0), ("NO2", 35.0)])
  ]

  /** Every preset supplies exactly PM2.5, PM10 and NO2, none of them
      negative, and no city is listed twice. */
  lemma PresetsWellFormed()
    ensures Distinct(Keys(CityPresets))
    ensures forall i :: 0 <= i < |CityPresets| ==>
      && Keys(CityPresets[i].1) == EditableNames
      && forall j :: 0 <= j < |CityPresets[i].1| ==> CityPresets[i].1[j].1 >= 0.0
  {
  }

  /** The initial readings for a city the selector offers: the preset's
      three values, which the input widgets accept as they are. */
  function PresetReadings(city: string): (u: Readings)
    requires city in Keys(CityPresets)
    ensures WithinInputBounds(u)
    ensures ("PM2.5", u.pm25) in At(CityPresets, city)
    ensures ("PM10", u.pm10) in At(CityPresets, city)
    ensures ("NO2", u.no2) in At(CityPresets, city)
  {
    PresetsWellFormed();
    var preset := At(CityPresets, city);
    assert Keys(preset) == EditableNames;
    Readings(At(preset, "PM2.5"), At(preset, "PM10"), At(preset, "NO2"))
  }

  /** Selecting Delhi and predicting with its readings names PM10 as the
      primary contributor. */
  lemma DelhiPresetTopPollutant()
    ensures Keys(CityPresets)[1] == "Delhi"
    ensures TopPollutant(PresetReadings("Delhi")) == "PM10"
  {
    assert CityPresets[1] == ("Delhi", [("PM2.5", 160.0), ("PM10", 220.0), ("NO2", 90.0)]);
    assert Keys(CityPresets)[1] == "Delhi";
    assert PresetReadings("Delhi") == Readings(160.0, 220.0, 90.0);
    DelhiExample();
  }
}
