/**
 * The Stepper: a vertical list of labelled steps, the `activeStep`-th of
 * them (counting from 1) current. Each row's look is decided by comparing
 * its position `key` with `activeStep`.
 */
module Stepper {

  /** The theme colours a row can take. */
  datatype Colour = Background | Success | LightText

  /** How a row links to the next one. */
  datatype Connector = NoConnector | Solid | Dashed

  datatype StepRow = StepRow(
    title: string,
    active: bool,           // the current step
    checkmark: bool,        // the circle shows a check mark
    background: Colour,     // circle fill
    border: Colour,         // circle outline
    connector: Connector,   // line to the next step
    connectorColour: Colour,
    labelColour: Colour,
    shortRow: bool)         // the row has the circle's height instead of the box height

  /** `activeStep` holds a whole number. */
  predicate Integral(x: real)
  {
    x.Floor as real == x
  }

  /**
   * One row, with each condition written in the form the component uses.
   * `activeStep` is a JavaScript number, so it is a real here; `key` is the
   * row's position.
   */
  function Row(title: string, key: nat, activeStep: real, count: nat): StepRow
  {
    var k := key as real;
    var isActive := activeStep - 1.0 == k;
    StepRow(
      title,
      isActive,
      activeStep > k + 1.0,
      if isActive then Background else if k < activeStep then Success else Background,
      if isActive then Success else if k < activeStep then Success else LightText,
      if key != count - 1 then (if k <= activeStep - 2.0 then Solid else Dashed) else NoConnector,
      if k <= activeStep - 2.0 then Success else LightText,
      if k < activeStep then Success else LightText,
      key == count - 1)
  }

  /** `steps.map(...)`: one row per step, in order. */
  function Rows(steps: seq<string>, activeStep: real): (r: seq<StepRow>)
    ensures |r| == |steps|
    ensures forall k :: 0 <= k < |r| ==> r[k].title == steps[k]
  {
    seq(|steps|, k requires 0 <= k < |steps| => Row(steps[k], k, activeStep, |steps|))
  }

  /**
   * The row conditions, stated once each: the row before `activeStep` is
   * the active one; rows before it are done (check mark); the active row
   * never shows a check mark; border and label turn to the success colour
   * from the active row back; the last row has no connector and the short
   * height. For a whole `activeStep` the solid success connector is
   * exactly the check mark.
   */
  lemma RowClassification(steps: seq<string>, activeStep: real, k: nat)
    requires k < |steps|
    ensures Rows(steps, activeStep)[k].active <==> k as real == activeStep - 1.0
    ensures Rows(steps, activeStep)[k].checkmark <==> (k as real) < activeStep - 1.0
    ensures Rows(steps, activeStep)[k].checkmark ==> !Rows(steps, activeStep)[k].active
    ensures Rows(steps, activeStep)[k].connector == Solid <==> k < |steps| - 1 && (k as real) <= activeStep - 2.0
    ensures Rows(steps, activeStep)[k].connector == NoConnector <==> k == |steps| - 1
    ensures Rows(steps, activeStep)[k].shortRow <==> k == |steps| - 1
    ensures Rows(steps, activeStep)[k].border == Success <==> (k as real) < activeStep
    ensures Rows(steps, activeStep)[k].background == Success <==>
              (k as real) < activeStep && k as real != activeStep - 1.0
    ensures Rows(steps, activeStep)[k].labelColour == Success <==> (k as real) < activeStep
    ensures Integral(activeStep) ==>
              (Rows(steps, activeStep)[k].connector == Solid <==>
                 k < |steps| - 1 && Rows(steps, activeStep)[k].checkmark)
    ensures Integral(activeStep) ==>
              (Rows(steps, activeStep)[k].connectorColour == Success <==> Rows(steps, activeStep)[k].checkmark)
  {
    if Integral(activeStep) {
      // between two whole numbers there is no third
      assert (k as real) < activeStep - 1.0 <==> k < activeStep.Floor - 1;
      assert (k as real) <= activeStep - 2.0 <==> k <= activeStep.Floor - 2;
    }
  }

  /**
   * For a fractional `activeStep` the two forms part: with `activeStep`
   * 2.5, row 1 of three shows the check mark but a dashed, light connector.
   */
  lemma FractionalStepSplits(steps: seq<string>, activeStep: real)
    requires |steps| == 3 && activeStep == 2.5
    ensures !Integral(activeStep)
    ensures Rows(steps, activeStep)[1].checkmark
    ensures Rows(steps, activeStep)[1].connector == Dashed
    ensures Rows(steps, activeStep)[1].connectorColour == LightText
  {
  }

  /** Exactly when `activeStep` is a whole number in 1..n is some row active; never more than one. */
  lemma {:induction false} ExactlyOneActive(steps: seq<string>, activeStep: real)
    ensures (exists k :: 0 <= k < |steps| && Rows(steps, activeStep)[k].active) <==>
              Integral(activeStep) && 1.0 <= activeStep <= |steps| as real
    ensures forall j, k ::
              0 <= j < |steps| && 0 <= k < |steps| &&
              Rows(steps, activeStep)[j].active && Rows(steps, activeStep)[k].active
              ==> j == k
  {
    if Integral(activeStep) && 1.0 <= activeStep <= |steps| as real {
      var k := activeStep.Floor - 1;
      assert Rows(steps, activeStep)[k].active;
    }
    if exists k :: 0 <= k < |steps| && Rows(steps, activeStep)[k].active {
      var k :| 0 <= k < |steps| && Rows(steps, activeStep)[k].active;
      assert activeStep == (k + 1) as real;
    }
  }

  /** The done rows form a prefix: a row before a done row is done too. */
  lemma DoneRowsArePrefix(steps: seq<string>, activeStep: real, j: nat, k: nat)
    requires j <= k < |steps|
    requires Rows(steps, activeStep)[k].checkmark
    ensures Rows(steps, activeStep)[j].checkmark
  {
  }
}
