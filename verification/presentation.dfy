/**
 Presentation of a prediction: the badge colour and the health advisory for
 the decoded category label, and the pollutant shown as the primary
 contributor.
 */
module Presentation {
  import opened Options
  import opened Dicts
  import opened Assembly

  /** The six AQI categories the program knows how to present. */
  datatype Category = Good | Satisfactory | Moderate | Poor | VeryPoor | Severe

  /** The label of each category as the label decoder spells it. */
  function Label(c: Category): string
  {
    match c
    case Good => "Good"
    case Satisfactory => "Satisfactory"
    case Moderate => "Moderate"
    case Poor => "Poor"
    case VeryPoor => "Very Poor"
    case Severe => "Severe"
  }

  /** Recognises the six labels; every other string is an unknown label. */
  function ParseCategory(s: string): (r: Option<Category>)
    ensures forall c :: r == Some(c) <==> Label(c) == s
  {
    if s == "Good" then Some(Good)
    else if s == "Satisfactory" then Some(Satisfactory)
    else if s == "Moderate" then Some(Moderate)
    else if s == "Poor" then Some(Poor)
    else if s == "Very Poor" then Some(VeryPoor)
    else if s == "Severe" then Some(Severe)
    else None
  }

  /** The badge colour of each category. */
  function Hex(c: Category): string
  {
    match c
    case Good => "#2ecc71"
    case Satisfactory => "#7bed9f"
    case Moderate => "#f1c40f"
    case Poor => "#e67e22"
    case VeryPoor => "#e74c3c"
    case Severe => "#8e44ad"
  }

  /** The health advisory of each category. */
  function Advice(c: Category): string
  {
    match c
    case Good => "Air quality is good. Ideal for outdoor activities."
    case Satisfactory => "Air quality is acceptable. Minor discomfort to sensitive people."
    case Moderate => "May cause breathing discomfort to people with lung or heart disease."
    case Poor => "Breathing discomfort to most people on prolonged exposure."
    case VeryPoor => "Respiratory illness on prolonged exposure. Avoid outdoor activity."
    case Severe => "Serious health impacts. Stay indoors and avoid exertion."
  }

  /** Badge colour for a label the program does not know. */
  const UnknownColor: string := "#ffffff"

  /** The program's colour table, in its own order. */
  const ColorMap: Dict<string, string> :=
    [("Good", "#2ecc71"), ("Satisfactory", "#7bed9f"), ("Moderate", "#f1c40f"),
     ("Poor", "#e67e22"), ("Very Poor", "#e74c3c"), ("Severe", "#8e44ad")]

  /** The program's advisory table, in its own order. */
  const AdvisoryMap: Dict<string, string> :=
    [("Good", "Air quality is good. Ideal for outdoor activities."),
     ("Satisfactory", "Air quality is acceptable. Minor discomfort to sensitive people."),
     ("Moderate", "May cause breathing discomfort to people with lung or heart disease."),
     ("Poor", "Breathing discomfort to most people on prolonged exposure."),
     ("Very Poor", "Respiratory illness on prolonged exposure. Avoid outdoor activity."),
     ("Severe", "Serious health impacts. Stay indoors and avoid exertion.")]

  /** The six labels, in the order both tables list them. */
  const CategoryLabels: seq<string> :=
    ["Good", "Satisfactory", "Moderate", "Poor", "Very Poor", "Severe"]

  /** Both tables are keyed by the six labels, each listed once. */
  lemma TablesCoverLabels()
    ensures Keys(ColorMap) == CategoryLabels
    ensures Keys(AdvisoryMap) == CategoryLabels
    ensures Distinct(CategoryLabels)
  {
  }

  /** Both tables list every category under its label, with a colour other
      than the fallback and a non-empty advisory. */
  lemma TablesListCategory(c: Category)
    ensures (Label(c), Hex(c)) in ColorMap && Hex(c) != UnknownColor
    ensures (Label(c), Advice(c)) in AdvisoryMap && Advice(c) != ""
  {
    match c
    case Good => assert ColorMap[0] == (Label(c), Hex(c)) && AdvisoryMap[0] == (Label(c), Advice(c));
    case Satisfactory => assert ColorMap[1] == (Label(c), Hex(c)) && AdvisoryMap[1] == (Label(c), Advice(c));
    case Moderate => assert ColorMap[2] == (Label(c), Hex(c)) && AdvisoryMap[2] == (Label(c), Advice(c));
    case Poor => assert ColorMap[3] == (Label(c), Hex(c)) && AdvisoryMap[3] == (Label(c), Advice(c));
    case VeryPoor => assert ColorMap[4] == (Label(c), Hex(c)) && AdvisoryMap[4] == (Label(c), Advice(c));
    case Severe => assert ColorMap[5] == (Label(c), Hex(c)) && AdvisoryMap[5] == (Label(c), Advice(c));
  }

  /** A string that is no category's label is not among the tables' keys. */
  lemma UnknownLabelUnlisted(s: string)
    requires ParseCategory(s) == None
    ensures s !in CategoryLabels
  {
    assert CategoryLabels == [Label(Good), Label(Satisfactory), Label(Moderate),
                              Label(Poor), Label(VeryPoor), Label(Severe)];
  }

  /** `color_map.get(category, "#ffffff")`: total over all strings. A known
      label gets its category's colour, any other string the white fallback,
      and no known category is shown white. */
  function Color(category: string): (hex: string)
    ensures forall c :: ParseCategory(category) == Some(c) ==> hex == Hex(c)
    ensures hex == UnknownColor <==> ParseCategory(category) == None
  {
    TablesCoverLabels();
    match ParseCategory(category)
    case Some(c) =>
      TablesListCategory(c);
      GetEntry(ColorMap, category, Hex(c), UnknownColor);
      Get(ColorMap, category, UnknownColor)
    case None =>
      UnknownLabelUnlisted(category);
      Get(ColorMap, category, UnknownColor)
  }

  /** `advisory_map.get(category, '')`: total over all strings. A known label
      gets its category's advisory, which is never empty; any other string
      gets the empty advisory. */
  function Advisory(category: string): (text: string)
    ensures forall c :: ParseCategory(category) == Some(c) ==> text == Advice(c)
    ensures text == "" <==> ParseCategory(category) == None
  {
    TablesCoverLabels();
    match ParseCategory(category)
    case Some(c) =>
      TablesListCategory(c);
      GetEntry(AdvisoryMap, category, Advice(c), "");
      Get(AdvisoryMap, category, "")
    case None =>
      UnknownLabelUnlisted(category);
      Get(AdvisoryMap, category, "")
  }

  lemma ModerateExample()
    ensures Color("Moderate") == "#f1c40f"
    ensures Advisory("Moderate") == "May cause breathing discomfort to people with lung or heart disease."
  {
  }

  lemma UnknownLabelExample()
    ensures Color("Extreme") == "#ffffff"
    ensures Advisory("Extreme") == ""
  {
  }

  /** `i` is the first position holding the greatest value of `s`. */
  predicate IsFirstMax(s: seq<real>, i: int)
  {
    && 0 <= i < |s|
    && (forall j :: 0 <= j < |s| ==> s[j] <= s[i])
    && (forall j :: 0 <= j < i ==> s[j] < s[i])
  }

  /** At most one position is the first maximum. */
  lemma FirstMaxUnique(s: seq<real>, i: int, k: int)
    requires IsFirstMax(s, i) && IsFirstMax(s, k)
    ensures i == k
  {
    assert s[k] <= s[i];
    assert s[i] <= s[k];
  }

  /** The left-to-right scan `max` performs: `best` is the first maximum of
      `s[..j]`, and a later value replaces it only when strictly greater. */
  function MaxScan(s: seq<real>, best: nat, j: nat): (r: nat)
    requires best < j <= |s|
    requires IsFirstMax(s[..j], best)
    ensures IsFirstMax(s, r)
    decreases |s| - j
  {
    if j == |s| then
      assert s[..j] == s;
      best
    else
      assert s[..j + 1] == s[..j] + [s[j]];
      if s[j] > s[best] then MaxScan(s, j, j + 1)
      else MaxScan(s, best, j + 1)
  }

  /** The position `max(..., key=...)` selects: the first greatest value. */
  function FirstMaxIndex(s: seq<real>): (i: nat)
    requires |s| > 0
    ensures IsFirstMax(s, i)
  {
    MaxScan(s, 0, 1)
  }

  /** The names that have a display name; the program keeps only the
      pollutant values whose name is among them. */
  const DisplayedPollutants: set<string> := {"PM2.5", "PM10", "NO2", "OZONE", "SO2", "CO", "NH3"}

  /** `pollutant_values`: the table of pollutant values restricted to the
      displayed pollutants, which keeps all seven of them in order. */
  function PollutantValues(u: Readings): (d: Dict<string, real>)
    ensures d == DefaultValues(u)
  {
    Filter(DefaultValues(u), DisplayedPollutants)
  }

  /** The seven pollutant values, in the canonical order. */
  function ValuesInOrder(u: Readings): seq<real>
  {
    seq(|PollutantNames|, i requires 0 <= i < |PollutantNames| => Resolve(u, PollutantNames[i]))
  }

  /** In canonical order the values are the three readings followed by the
      four fixed levels. */
  lemma ValuesInOrderAreReadingsThenLevels(u: Readings)
    ensures ValuesInOrder(u) == [u.pm25, u.pm10, u.no2, 30.0, 10.0, 0.5, 5.0]
  {
  }

  lemma PollutantNamesDistinct()
    ensures Distinct(PollutantNames)
  {
  }

  /** The table's values are the rule's values, in the canonical order. */
  lemma ValuesFollowRule(u: Readings)
    ensures Values(DefaultValues(u)) == ValuesInOrder(u)
  {
    DefaultValuesFollowRule(u);
  }

  /** `max(pollutant_values, key=pollutant_values.get)`: the first pollutant,
      in the canonical order, whose value is the greatest of the seven. It
      depends only on the readings, never on the classifier's feature list. */
  function TopPollutant(u: Readings): (name: string)
    ensures name in PollutantNames
    ensures forall i :: 0 <= i < |PollutantNames| && PollutantNames[i] == name ==>
      IsFirstMax(ValuesInOrder(u), i)
  {
    var d := PollutantValues(u);
    ValuesFollowRule(u);
    var i := FirstMaxIndex(Values(d));
    assert IsFirstMax(ValuesInOrder(u), i);
    assert Keys(d)[i] == PollutantNames[i];
    PollutantNamesDistinct();
    d[i].0
  }

  /** The top pollutant's value is at least every other of the seven, and
      strictly above every pollutant that comes before it; and conversely
      the first maximal pollutant is the top one. */
  lemma TopPollutantIsFirstMax(u: Readings, i: int)
    requires 0 <= i < |PollutantNames|
    ensures TopPollutant(u) == PollutantNames[i] <==> IsFirstMax(ValuesInOrder(u), i)
  {
    var top := TopPollutant(u);
    var k :| 0 <= k < |PollutantNames| && PollutantNames[k] == top;
    if IsFirstMax(ValuesInOrder(u), i) {
      FirstMaxUnique(ValuesInOrder(u), i, k);
    }
  }

  /** Equal PM2.5 and PM10 readings above every other value: PM2.5 wins. */
  lemma TieGoesToEarliest(u: Readings)
    requires u.pm25 == u.pm10
    requires u.no2 < u.pm25 && 30.0 < u.pm25
    ensures TopPollutant(u) == "PM2.5"
  {
    var vs := ValuesInOrder(u);
    ValuesInOrderAreReadingsThenLevels(u);
    assert IsFirstMax(vs, 0);
    TopPollutantIsFirstMax(u, 0);
  }

  /** The Delhi readings 160 / 220 / 90 make PM10 the top pollutant. */
  lemma DelhiExample()
    ensures TopPollutant(Readings(160.0, 220.0, 90.0)) == "PM10"
  {
    var u := Readings(160.0, 220.0, 90.0);
    ValuesInOrderAreReadingsThenLevels(u);
    assert IsFirstMax(ValuesInOrder(u), 1);
    TopPollutantIsFirstMax(u, 1);
  }
}
