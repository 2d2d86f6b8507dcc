/**
 * Progress-bar arithmetic of `generate_map`: a fixed step of
 * `100 div (components + 2)`, one report per generated component, then one for
 * the previews and one for packing.
 */
module Progress {

  /** The text shown next to the bar. */
  datatype Label = Generating(component: string) | CreatingPreviews | Packing

  /** One `progress_bar.progress(value, text)` call. */
  datatype Report = Report(percent: int, text: Label)

  /** How far the reporting got before the run ended or failed. */
  datatype Reached = StagesOnly | UpToPreviews | UpToPacking

  /** `int(100 / (components + 2))`: two increments are reserved for previews
      and packing. For a positive divisor truncation and floor agree. */
  function StepSize(components: nat): (step: nat)
    ensures step * (components + 2) <= 100 < (step + 1) * (components + 2)
  {
    var d := components + 2;
    var q := 100 / d;
    assert 100 == q * d + 100 % d;
    q
  }

  /** The loop over the engine's stage names: each name is reported with the
      counter value from before it is advanced by `step`. */
  function StageReports(stages: seq<string>, step: nat, completed: nat): (rs: seq<Report>)
    ensures |rs| == |stages|
    ensures forall i :: 0 <= i < |stages| ==> rs[i] == Report(completed + i * step, Generating(stages[i]))
    decreases |stages|
  {
    if |stages| == 0 then []
    else [Report(completed, Generating(stages[0]))] + StageReports(stages[1..], step, completed + step)
  }

  /** All reports of one run with `components` components in the game whose
      engine yielded `stages` and got as far as `reached`. */
  function Reports(stages: seq<string>, components: nat, reached: Reached): (rs: seq<Report>)
    ensures |rs| == |stages| + (match reached case StagesOnly => 0 case UpToPreviews => 1 case UpToPacking => 2)
    ensures forall i :: 0 <= i < |stages| ==> rs[i].text == Generating(stages[i])
    ensures reached != StagesOnly ==> rs[|stages|].text == CreatingPreviews
    ensures reached == UpToPacking ==> rs[|stages| + 1].text == Packing
  {
    var step := StepSize(components);
    var k := |stages|;
    StageReports(stages, step, 0)
      + (if reached == StagesOnly then [] else [Report((k + 1) * step, CreatingPreviews)])
      + (if reached == UpToPacking then [Report((k + 2) * step, Packing)] else [])
  }

  /** The value shown by the `i`-th report: `i * step` for a stage, one step
      skipped before previews, `(k + 2) * step` for packing. */
  function ExpectedPercent(k: nat, step: nat, i: nat): int
  {
    if i < k then i * step else (i + 1) * step
  }

  lemma MulMonotone(a: nat, b: nat, step: nat)
    requires a <= b
    ensures a * step <= b * step
  {
  }

  lemma MulStrict(a: nat, b: nat, step: nat)
    requires a < b && step > 0
    ensures a * step < b * step
  {
  }

  /** Each report shows `ExpectedPercent` of its index, and there is one per
      stage plus one per finishing step reached. */
  lemma ReportsValues(stages: seq<string>, components: nat, reached: Reached)
    ensures var rs := Reports(stages, components, reached);
      && |rs| == |stages| + (match reached case StagesOnly => 0 case UpToPreviews => 1 case UpToPacking => 2)
      && forall i :: 0 <= i < |rs| ==> rs[i].percent == ExpectedPercent(|stages|, StepSize(components), i)
  {
    var rs := Reports(stages, components, reached);
    var step := StepSize(components);
    var k := |stages|;
    var stageRs := StageReports(stages, step, 0);
    assert forall i :: 0 <= i < k ==> rs[i] == stageRs[i];
    forall i | k <= i < |rs|
      ensures rs[i].percent == ExpectedPercent(k, step, i)
    {
      assert i == k ==> rs[i].percent == (k + 1) * step;
      assert i == k + 1 ==> rs[i].percent == (k + 2) * step;
    }
  }

  lemma ExpectedMonotone(k: nat, step: nat, i: nat, j: nat)
    requires i <= j
    ensures ExpectedPercent(k, step, i) <= ExpectedPercent(k, step, j)
    ensures step > 0 && i < j ==> ExpectedPercent(k, step, i) < ExpectedPercent(k, step, j)
  {
    var a := if i < k then i else i + 1;
    var b := if j < k then j else j + 1;
    MulMonotone(a, b, step);
    if step > 0 && i < j {
      MulStrict(a, b, step);
    }
  }

  lemma ExpectedBounded(k: nat, components: nat, i: nat)
    requires k <= components && i < k + 2
    ensures 0 <= ExpectedPercent(k, StepSize(components), i) <= 100
  {
    var step := StepSize(components);
    var a := if i < k then i else i + 1;
    MulMonotone(a, components + 2, step);
    MulMonotone(0, a, step);
  }

  /** The shown values never decrease. */
  lemma ReportsNonDecreasing(stages: seq<string>, components: nat, reached: Reached)
    ensures var rs := Reports(stages, components, reached);
      forall i, j :: 0 <= i <= j < |rs| ==> rs[i].percent <= rs[j].percent
  {
    var rs := Reports(stages, components, reached);
    ReportsValues(stages, components, reached);
    forall i, j | 0 <= i <= j < |rs|
      ensures rs[i].percent <= rs[j].percent
    {
      ExpectedMonotone(|stages|, StepSize(components), i, j);
    }
  }

  /** With a positive step (at most 98 components) every value shown is
      larger than the one before. */
  lemma ReportsIncreasing(stages: seq<string>, components: nat, reached: Reached)
    requires StepSize(components) > 0
    ensures var rs := Reports(stages, components, reached);
      forall i, j :: 0 <= i < j < |rs| ==> rs[i].percent < rs[j].percent
  {
    var rs := Reports(stages, components, reached);
    ReportsValues(stages, components, reached);
    forall i, j | 0 <= i < j < |rs|
      ensures rs[i].percent < rs[j].percent
    {
      ExpectedMonotone(|stages|, StepSize(components), i, j);
    }
  }

  /** When the engine yields no more stages than the game has components,
      every value shown lies in 0..100. */
  lemma ReportsWithinHundred(stages: seq<string>, components: nat, reached: Reached)
    requires |stages| <= components
    ensures var rs := Reports(stages, components, reached);
      forall i :: 0 <= i < |rs| ==> 0 <= rs[i].percent <= 100
  {
    var rs := Reports(stages, components, reached);
    ReportsValues(stages, components, reached);
    forall i | 0 <= i < |rs|
      ensures 0 <= rs[i].percent <= 100
    {
      ExpectedBounded(|stages|, components, i);
    }
  }

  /** The packing report, when reached, is the largest value shown. */
  lemma PackingIsMaximum(stages: seq<string>, components: nat)
    ensures var rs := Reports(stages, components, UpToPacking);
      && rs[|rs| - 1] == Report((|stages| + 2) * StepSize(components), Packing)
      && forall i :: 0 <= i < |rs| ==> rs[i].percent <= rs[|rs| - 1].percent
  {
    ReportsValues(stages, components, UpToPacking);
    ReportsNonDecreasing(stages, components, UpToPacking);
  }
}
