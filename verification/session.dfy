/**
 The page across interactions. Streamlit runs the script top to bottom once
 per interaction. A button reads as pressed only in the run its own click
 starts. A widget keeps its value into the next run only if that run renders
 it again; otherwise its state is dropped and it comes back with its default.

 As written, the numeric-estimate checkbox is rendered only inside the
 branch of the predict button, so the run in which the checkbox could read
 as ticked never renders it. The corrected session remembers that a
 prediction was made, so the checkbox stays on the page and its value
 survives the click that ticks it.
 */
module Session {
  import opened Options

  /** What starts one run of the script. */
  datatype Interaction =
    | PressPredict     // the "Predict AQI" button
    | ToggleEstimate   // the numeric-AQI checkbox
    | EditInput        // a reading or the city selector

  /** What one run shows of the estimate, and the state it leaves. */
  datatype RunOutcome<S> = RunOutcome(showsEstimate: bool, next: S)

  /** The checkbox's value in a run. `kept` is its state from the previous
      run, `None` when that run did not render it; only a rendered checkbox
      can be clicked. */
  function BoxValue(kept: Option<bool>, e: Interaction): (ticked: bool)
    ensures kept == None ==> !ticked
    ensures kept.Some? ==> (ticked <==> (kept.value != (e == ToggleEstimate)))
  {
    match kept
    case None => false
    case Some(b) => if e == ToggleEstimate then !b else b
  }

  /** One run as written: the checkbox is rendered, and the estimate can be
      shown, only in a run started by the predict button. */
  function RunAsWritten(available: bool, kept: Option<bool>, e: Interaction): (o: RunOutcome<Option<bool>>)
    ensures o.showsEstimate <==> available && e == PressPredict && kept == Some(true)
    ensures o.next.Some? <==> available && e == PressPredict
    ensures o.next == Some(true) ==> kept == Some(true)
  {
    if available && e == PressPredict then
      var ticked := BoxValue(kept, e);
      RunOutcome(ticked, Some(ticked))
    else
      RunOutcome(false, None)
  }

  /** Whether each run of a sequence of interactions shows the estimate, as
      written. */
  function ShownAsWritten(available: bool, kept: Option<bool>, es: seq<Interaction>): (shown: seq<bool>)
    ensures |shown| == |es|
    decreases |es|
  {
    if |es| == 0 then []
    else
      var o := RunAsWritten(available, kept, es[0]);
      [o.showsEstimate] + ShownAsWritten(available, o.next, es[1..])
  }

  /** As written, no sequence of interactions starting from a fresh page
      ever shows the numeric estimate. */
  lemma {:induction false} NeverShownAsWritten(available: bool, kept: Option<bool>, es: seq<Interaction>)
    requires kept != Some(true)
    ensures forall i :: 0 <= i < |es| ==> !ShownAsWritten(available, kept, es)[i]
    decreases |es|
  {
    if |es| > 0 {
      var o := RunAsWritten(available, kept, es[0]);
      NeverShownAsWritten(available, o.next, es[1..]);
      assert ShownAsWritten(available, kept, es) ==
        [o.showsEstimate] + ShownAsWritten(available, o.next, es[1..]);
    }
  }

  /** The page state the corrected session carries between runs: whether a
      prediction has been made, and the checkbox's kept state. */
  datatype Page = Page(predicted: bool, kept: Option<bool>)

  const FreshPage: Page := Page(false, None)

  /** One run with the prediction remembered: once the button was pressed,
      every run renders the result and, when the estimate is available, the
      checkbox; the estimate is shown exactly when it is available and the
      checkbox reads as ticked. */
  function RunCorrected(available: bool, p: Page, e: Interaction): (o: RunOutcome<Page>)
    ensures o.next.predicted <==> p.predicted || e == PressPredict
    ensures o.showsEstimate <==> available && o.next.predicted && BoxValue(p.kept, e)
    ensures o.next.kept.Some? <==> available && o.next.predicted
    ensures o.next.kept.Some? ==> o.next.kept.value == o.showsEstimate
  {
    var predicted := p.predicted || e == PressPredict;
    if available && predicted then
      var ticked := BoxValue(p.kept, e);
      RunOutcome(ticked, Page(true, Some(ticked)))
    else
      RunOutcome(false, Page(predicted, None))
  }

  /** Whether each run of a sequence of interactions shows the estimate,
      with the prediction remembered. */
  function ShownCorrected(available: bool, p: Page, es: seq<Interaction>): (shown: seq<bool>)
    ensures |shown| == |es|
    decreases |es|
  {
    if |es| == 0 then []
    else
      var o := RunCorrected(available, p, es[0]);
      [o.showsEstimate] + ShownCorrected(available, o.next, es[1..])
  }

  /** With the prediction remembered, pressing the button and then ticking
      the checkbox shows the estimate whenever it is available, and never
      when it is not. */
  lemma CorrectedShowsEstimate(available: bool)
    ensures ShownCorrected(available, FreshPage, [PressPredict, ToggleEstimate]) == [false, available]
  {
    var o1 := RunCorrected(available, FreshPage, PressPredict);
    var o2 := RunCorrected(available, o1.next, ToggleEstimate);
    assert ShownCorrected(available, FreshPage, [PressPredict, ToggleEstimate]) ==
      [o1.showsEstimate] + ShownCorrected(available, o1.next, [ToggleEstimate]);
    assert ShownCorrected(available, o1.next, [ToggleEstimate]) ==
      [o2.showsEstimate] + ShownCorrected(available, o2.next, []);
  }

  /** With the prediction remembered, an unavailable estimate is never shown,
      whatever the user does. */
  lemma {:induction false} CorrectedRespectsGate(p: Page, es: seq<Interaction>)
    ensures forall i :: 0 <= i < |es| ==> !ShownCorrected(false, p, es)[i]
    decreases |es|
  {
    if |es| > 0 {
      var o := RunCorrected(false, p, es[0]);
      CorrectedRespectsGate(o.next, es[1..]);
      assert ShownCorrected(false, p, es) == [o.showsEstimate] + ShownCorrected(false, o.next, es[1..]);
    }
  }
}
