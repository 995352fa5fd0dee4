/**
 One prediction request: the classifier sees the assembled row, the decoded
 label is presented, and the optional numeric estimate is computed only when
 the regression artifacts loaded in the same run of the script and the user
 asked for it. The script runs top to bottom on every page interaction, and
 nothing caches its loads, so each run decides availability afresh.

 The classifier, the label decoder and the regressor are trained models the
 program only calls; they appear here as function parameters.
 */
module Prediction {
  import opened Options
  import opened Dicts
  import opened Assembly
  import opened Presentation

  /** A one-row data frame: named columns in order, one value each. */
  type Frame = Dict<string, real>

  /** The availability of the numeric estimate in one run of the script. */
  datatype Gate =
    | Unavailable
    | Available(regress: Frame -> real, columns: seq<string>)

  /** The best-effort load at the top of a run: the regressor, then its
      column list. A failure of either leaves the estimate unavailable for
      that run; it is never an error. */
  function OpenGate(model: Option<Frame -> real>, columns: Option<seq<string>>): (g: Gate)
    ensures g.Available? <==> model.Some? && columns.Some?
    ensures g.Available? ==> g.regress == model.value && g.columns == columns.value
  {
    match model
    case None => Unavailable
    case Some(regress) =>
      match columns
      case None => Unavailable
      case Some(cs) => Available(regress, cs)
  }

  /** `frame[columns]`: exactly the requested columns, in the requested
      order, each with the value the frame holds for it. Every requested
      column must exist in the frame. */
  function Project(frame: Frame, columns: seq<string>): (p: Frame)
    requires forall c :: c in columns ==> c in Keys(frame)
    ensures Keys(p) == columns
    ensures forall i :: 0 <= i < |p| ==> p[i] in frame
  {
    seq(|columns|, i requires 0 <= i < |columns| => (columns[i], At(frame, columns[i])))
  }

  /** Projecting the assembled row onto any subset of its features yields,
      column by column, the value the resolution rule gives that column. */
  lemma ProjectAssembledRow(u: Readings, features: seq<string>, columns: seq<string>)
    requires forall c :: c in columns ==> c in features
    ensures forall c :: c in columns ==> c in Keys(AssembleRow(u, features))
    ensures |Project(AssembleRow(u, features), columns)| == |columns|
    ensures forall i :: 0 <= i < |columns| ==>
      Project(AssembleRow(u, features), columns)[i] == (columns[i], Resolve(u, columns[i]))
  {
    var row := AssembleRow(u, features);
    assert forall c :: c in columns ==> c in Keys(row);
    var p := Project(row, columns);
    forall i | 0 <= i < |columns|
      ensures p[i] == (columns[i], Resolve(u, columns[i]))
    {
      assert Keys(p)[i] == columns[i];
      var j :| 0 <= j < |row| && row[j] == p[i];
    }
  }

  /** A numeric estimate together with the frame the regressor was given. */
  datatype Estimate = Estimate(input: Frame, aqi: real)

  /** The numeric-estimate step: the regressor runs on the row projected
      onto its own columns, and only when the gate is open and the user
      opted in; otherwise no estimate exists. */
  function NumericEstimate(g: Gate, optIn: bool, row: Frame): (r: Option<Estimate>)
    requires g.Available? && optIn ==> forall c :: c in g.columns ==> c in Keys(row)
    ensures r.Some? <==> g.Available? && optIn
    ensures r.Some? ==> Keys(r.value.input) == g.columns
    ensures r.Some? ==> forall i :: 0 <= i < |r.value.input| ==> r.value.input[i] in row
    ensures r.Some? ==> r.value.aqi == g.regress(r.value.input)
  {
    if g.Available? && optIn then
      var input := Project(row, g.columns);
      Some(Estimate(input, g.regress(input)))
    else
      None
  }

  /** What one press of the predict button shows. */
  datatype Report = Report(
    category: string,
    color: string,
    advisory: string,
    topPollutant: string,
    numeric: Option<Estimate>)

  /** One prediction request. The classifier is given the assembled row; the
      badge and advisory follow the decoded label; the top pollutant depends
      on the readings alone; the regressor is given the row projected onto
      its columns, resolved by the same rule, and only when the gate is open
      and the user opted in. */
  function Predict<L>(
    classify: Frame -> L,
    decode: L -> string,
    features: seq<string>,
    g: Gate,
    u: Readings,
    optIn: bool): (r: Report)
    requires g.Available? && optIn ==> forall c :: c in g.columns ==> c in features
    ensures r.category == decode(classify(AssembleRow(u, features)))
    ensures forall c :: ParseCategory(r.category) == Some(c) ==> r.color == Hex(c) && r.advisory == Advice(c)
    ensures ParseCategory(r.category) == None ==> r.color == UnknownColor && r.advisory == ""
    ensures r.topPollutant == TopPollutant(u)
    ensures r.numeric.Some? <==> g.Available? && optIn
    ensures r.numeric.Some? ==> r.numeric.value.aqi == g.regress(r.numeric.value.input)
    ensures r.numeric.Some? ==> |r.numeric.value.input| == |g.columns|
    ensures r.numeric.Some? ==> forall i :: 0 <= i < |g.columns| ==>
      r.numeric.value.input[i] == (g.columns[i], Resolve(u, g.columns[i]))
  {
    var row := AssembleRow(u, features);
    var category := decode(classify(row));
    ProjectAssembledRow(u, features, if g.Available? && optIn then g.columns else []);
    Report(category, Color(category), Advisory(category), TopPollutant(u),
           NumericEstimate(g, optIn, row))
  }

  /** When either optional artifact failed to load, no request ever yields a
      numeric estimate, whatever the user selects. */
  lemma FailedLoadNeverEstimates<L>(
    model: Option<Frame -> real>,
    columns: Option<seq<string>>,
    classify: Frame -> L,
    decode: L -> string,
    features: seq<string>,
    u: Readings,
    optIn: bool)
    requires model.None? || columns.None?
    ensures Predict(classify, decode, features, OpenGate(model, columns), u, optIn).numeric == None
  {
  }
}
