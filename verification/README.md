# AQI prediction app — a Dafny model of its deterministic core

The application is a single Streamlit page that collects three pollutant
readings (PM2.5, PM10, NO2), feeds a feature row to a pre-trained AQI category
classifier, and shows the decoded category with a coloured badge, a health
advisory, the "primary contributing pollutant", and — when the optional
regression artifacts loaded — a numeric AQI estimate the user can opt into.

This project models the deterministic logic around the trained models:

- `dicts.dfy` (module `Dicts`): Python dicts as insertion-ordered association
  lists, with `dict.get`, `d[k]`, `d[k] = v`, filtering comprehensions and the
  key collapse a dict comprehension performs on repeated keys.
- `assembly.dfy` (module `Assembly`): the user's readings, the table of pollutant
  values (`default_values`), the resolution rule stated on its own, and the
  feature row laid out in the classifier's column order.
- `presentation.dfy` (module `Presentation`): the six categories as a closed
  enumeration, the colour and advisory tables with their fallbacks, and the
  top-pollutant argmax with Python's first-maximum tie-break.
- `presets.dfy` (module `Presets`): the city preset table.
- `prediction.dfy` (module `Prediction`): the start-up availability gate of the
  numeric estimate, column projection of a one-row frame, and one full
  prediction request.
- `session.dfy` (module `Session`): the page across interactions, as written
  and with the prediction remembered between runs.
- `options.dfy` (module `Options`): an `Option` type for best-effort loads and
  optional results.

The classifier, the label decoder and the regressor are uninterpreted function
parameters (`classify`, `decode`, `regress`). Whether each optional artifact
loaded is an `Option` input. Pollutant values are `real`: the program only
copies and compares them. Every operation is a pure function, so two calls with
the same inputs give the same result by construction.

Three details of the code shape the model:

- The regressor's input is a column selection from the assembled row
  (app.py:158). A regression column missing from `features` raises
  `KeyError`, so the model requires every regression column to be a feature;
  under that requirement `ProjectAssembledRow` proves each selected value is
  the one the resolution rule gives that column.
- A dict comprehension (app.py:78) collapses a repeated feature name into one
  column at its first position. `AssembleRow` models that collapse (its keys
  are `Dedup(features)`); `RowFollowsFeatures` proves the one-entry-per-name
  layout for a feature list without repetitions.
- The script runs top to bottom on every page interaction and nothing caches
  its loads, so availability of the numeric estimate is decided afresh in
  each run. `Session` models runs across interactions.

## Model

| member | source | states |
|---|---|---|
| Dicts.Get | app.py:78 | `dict.get(k, default)` gives the default exactly when the key is absent, otherwise an entry of the dict, namely the first entry with that key |
| Dicts.GetEntry | app.py:99 | in a dict with distinct keys, `get` returns the value stored with the key |
| Dicts.At | app.py:48 | `d[k]` for a present key returns a value stored with that key |
| Dicts.Put | app.py:78 | `d[k] = v` keeps keys distinct, keeps an existing key's position, appends a new key at the end, replaces only the entry for `k` and leaves every other entry unchanged |
| Dicts.Filter | app.py:129-131 | a filtering dict comprehension keeps exactly the entries whose key is kept, and is the identity when every key is kept |
| Dicts.FilterKeepsOrder | app.py:129-131 | filtering works entry by entry in the original order: a concatenation filters part by part, and one entry stays exactly when its key is kept |
| Dicts.FirstIndex | app.py:78 | the position returned holds the element and no earlier position does |
| Dicts.FirstIndexInPrefix | app.py:78 | an element's first occurrence in a list is its first occurrence in any prefix containing it |
| Dicts.Dedup | app.py:78 | the keys a comprehension over a list ends up with are distinct, are exactly the list's elements, and appear in order of first occurrence |
| Dicts.DedupOfDistinct | app.py:78 | a list without repetitions keeps all its elements, in order, as dict keys |
| Assembly.DefaultValues | app.py:67-75 | the table of pollutant values has the keys PM2.5, PM10, NO2, OZONE, SO2, CO, NH3 in that order |
| Assembly.DefaultValuesFollowRule | app.py:67-75 | each table entry is the user reading for PM2.5/PM10/NO2 and 30.0, 10.0, 0.5, 5.0 for OZONE, SO2, CO, NH3 |
| Assembly.LookupFollowsRule | app.py:67-78 | looking any name up in the table with fallback 0 gives the three-level rule: user reading, fixed level, else 0 |
| Assembly.AssembleRow | app.py:77-78 | the feature row has distinct keys, one per distinct feature name in order of first occurrence and no others, each holding the rule's value for its name |
| Assembly.RowFollowsFeatures | app.py:78 | for a feature list without repetitions the row has exactly one entry per feature, in feature order, holding the rule's value |
| Assembly.RowLookup | app.py:78 | every feature name is present in the row with the rule's value |
| Presentation.ParseCategory | app.py:90-97 | a string is recognised as a category exactly when it is that category's label |
| Presentation.TablesListCategory | app.py:90-149 | both tables list every category under its label, with a colour other than `#ffffff` and a non-empty advisory |
| Presentation.Color | app.py:90-99 | every string gets a colour: a known label its category's hex code, any other string `#ffffff`, and white only for unknown labels |
| Presentation.Advisory | app.py:142-151 | every string gets an advisory: a known label its category's sentence, any other string the empty string, and empty only for unknown labels |
| Presentation.ModerateExample | app.py:90-151 | "Moderate" is shown as `#f1c40f` with the lung-or-heart-disease advisory |
| Presentation.UnknownLabelExample | app.py:99-151 | an unrecognised label such as "Extreme" is shown white with an empty advisory |
| Presentation.MaxScan | app.py:133 | a left-to-right scan that replaces its candidate only on a strictly greater value ends at the first maximum |
| Presentation.FirstMaxIndex | app.py:133 | the position `max` selects holds the greatest value and every earlier value is strictly smaller |
| Presentation.FirstMaxUnique | app.py:133 | at most one position is the first maximum, so the argmax is determined |
| Presentation.PollutantValues | app.py:129-131 | restricting the table to the displayed pollutants keeps all seven entries in order |
| Presentation.ValuesInOrderAreReadingsThenLevels | app.py:67-75 | in canonical order the seven values are the three readings followed by 30.0, 10.0, 0.5 and 5.0 |
| Presentation.ValuesFollowRule | app.py:67-75 | the table's values are the rule's values for the seven pollutants in canonical order |
| Presentation.TopPollutant | app.py:129-133 | the top pollutant is one of the seven and is at the first position holding the greatest of the seven values; it takes only the readings as input |
| Presentation.TopPollutantIsFirstMax | app.py:129-133 | a pollutant is the top one exactly when its value is at least every other and strictly above every earlier pollutant |
| Presentation.TieGoesToEarliest | app.py:133 | equal PM2.5 and PM10 above all other values give PM2.5 |
| Presentation.DelhiExample | app.py:133 | readings 160/220/90 give PM10 |
| Presets.PresetsWellFormed | app.py:37-44 | cities are listed once each and every preset supplies exactly PM2.5, PM10, NO2, all non-negative |
| Presets.PresetReadings | app.py:48-61 | a selected city's readings are the PM2.5, PM10 and NO2 values stored in its preset, and are accepted by the inputs' minimum of 0 |
| Presets.DelhiPresetTopPollutant | app.py:39 | the Delhi preset makes PM10 the top pollutant |
| Prediction.OpenGate | app.py:13-18 | the numeric estimate is available exactly when both optional loads succeeded, with the loaded regressor and column list |
| Prediction.Project | app.py:158 | the projected frame has exactly the requested columns in the requested order, each value copied from the frame |
| Prediction.ProjectAssembledRow | app.py:158 | projecting the assembled row onto columns among the features gives, per column, the rule's value |
| Prediction.NumericEstimate | app.py:154-159 | an estimate exists exactly when the gate is open and the user opted in; the regressor then sees exactly its columns, copied from the row |
| Prediction.Predict | app.py:78-159 | a request classifies the assembled row, presents the decoded label with its colour and advisory or the fallbacks, reports the readings' top pollutant regardless of the feature list, and estimates only when available and opted in, as the regressor's value on exactly the regression columns holding the rule's values |
| Prediction.FailedLoadNeverEstimates | app.py:13-18 | after a failed optional load no request produces an estimate, whatever the user selects |
| Session.BoxValue | app.py:155 | a checkbox not rendered in the previous run reads as unticked; a kept one reads as its kept value, flipped by a click on it |
| Session.RunAsWritten | app.py:84-159 | as written, a run shows the estimate exactly when it is available, started by the predict button, and the checkbox was kept ticked; only such a run keeps the checkbox, and never newly ticked |
| Session.NeverShownAsWritten | app.py:84-159 | as written, no sequence of interactions from a fresh page ever shows the estimate |
| Session.RunCorrected | app.py:84-159 | with the prediction remembered, a run shows the estimate exactly when it is available, a prediction was made, and the checkbox reads as ticked |
| Session.CorrectedShowsEstimate | app.py:154-159 | with the prediction remembered, pressing the button and then ticking the checkbox shows the estimate exactly when it is available |
| Session.CorrectedRespectsGate | app.py:154-159 | with the prediction remembered, an unavailable estimate is never shown whatever the user does |

## Left out

- Streamlit page configuration, titles, widgets, HTML badge and messages: presentation only. The checkbox appearing only when the estimate is available is modelled by ignoring `optIn` when the gate is closed.
- Predict: `optIn` is a free parameter standing for the checkbox's value within one run. It abstracts Streamlit's rerun model; under that model the page as written never supplies `true` (see Findings), and the corrected session (`Session.RunCorrected`) is what makes it `true` after the user ticks the box.
- NumericEstimate: like `Predict`, takes `optIn` as a free parameter rather than deriving it from the page's runs.
- The mandatory artifact loads (classifier, label decoder, feature list): file I/O; their results are parameters, and a failure there aborts start-up before any request.
- The internals of the classifier, label decoder and regressor: trained models, modelled as uninterpreted functions. The label array returned by `predict` and `inverse_transform(...)[0]` are folded into `classify` and `decode`.
- pandas DataFrame construction: a one-row frame is modelled as its ordered columns; a `KeyError` for a regression column missing from the row is excluded by a precondition instead.
- The display names of the pollutants (app.py:118-126) beyond their key set, and the rounding of the estimate to two decimals (app.py:160): display formatting and floating point.
- Integer versus float values: the preset numbers and the `0` fallback are modelled as reals; only comparison and copying happen on them.
- The predict button: `Predict` models one run in which the result is shown.
- Session: widget keys, `st.session_state` contents and every widget other than the predict button and the numeric checkbox are not modelled; edits to readings are one kind of interaction.

## Findings

| source | as written | input that shows it | evidently intended | confidence | as-written member | corrected member |
|---|---|---|---|---|---|---|
| app.py:84-160 | the numeric-AQI checkbox is created inside `if st.button("Predict AQI")`; the button is true only in the run its click starts, so the run started by ticking the checkbox skips the branch, drops the checkbox and shows no estimate | with both regression artifacts present: press "Predict AQI", then tick "Show predicted numeric AQI value" | after a prediction, ticking the checkbox shows the numeric estimate | medium: not executed; relies on Streamlit's rerun and widget-state rules | Session.NeverShownAsWritten | Session.CorrectedShowsEstimate |
