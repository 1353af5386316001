/** The silhouette and reclaim-slider arithmetic (app.js, updateSilhouette
    and updateReclaimDisplay).  Both are guarded on state.yearsLeft being
    truthy: absent (null) or zero means nothing is computed. */
module Reclaim {
  import opened Numerics
  import opened Dial

  /** Height, in SVG units, of the silhouette drawings. */
  const SilhouetteHeight: real := 500.0

  /** What one run of updateReclaimDisplay writes: the reclaimed years, the
      y offsets of the current and reclaimed fills, and whether the reclaimed
      overlay carries the `visible` class. */
  datatype ReclaimView = ReclaimView(
    reclaimedYears: real,
    currentFillY: real,
    reclaimedFillY: real,
    visible: bool)

  /** `if (!state.yearsLeft) return;` */
  predicate Applicable(yearsLeft: Option<int>)
    ensures Applicable(yearsLeft) ==> yearsLeft.Some?
    ensures yearsLeft == Some(0) || yearsLeft.None? ==> !Applicable(yearsLeft)
    ensures yearsLeft.Some? && yearsLeft.value != 0 ==> Applicable(yearsLeft)
  {
    yearsLeft.Some? && yearsLeft.value != 0
  }

  /** The years of the remaining life spent on screens at h half-hours a day
      (updateSilhouette); the same figure as originalYears below. */
  function SilhouetteYears(yearsLeft: Option<int>, h: Halves): (r: Option<real>)
    ensures r.Some? <==> Applicable(yearsLeft)
    ensures r.Some? ==> r.value * 32.0 == yearsLeft.value as real * h as real
  {
    if !Applicable(yearsLeft) then None
    else Some(yearsLeft.value as real * FillFraction(h))
  }

  function ReclaimDisplay(yearsLeft: Option<int>, h: Halves, slider: real): (r: Option<ReclaimView>)
    ensures r.Some? <==> Applicable(yearsLeft)
  {
    if !Applicable(yearsLeft) then None
    else
      var years := yearsLeft.value as real;
      var originalPercent := HoursOf(h) / WakingHours;
      var newPercent := slider / WakingHours;
      var reclaimedYears := years * originalPercent - years * newPercent;
      Some(ReclaimView(
        reclaimedYears,
        SilhouetteHeight - SilhouetteHeight * newPercent,
        SilhouetteHeight - SilhouetteHeight * (reclaimedYears / years),
        reclaimedYears > 0.0))
  }

  /** The reclaimed years are the remaining years times the share of waking
      hours given back; the reclaimed fill depends only on that share; and
      the overlay is shown exactly when the slider is below the stored hours. */
  lemma ReclaimMeaning(yearsLeft: int, h: Halves, slider: real)
    requires yearsLeft > 0
    ensures var v := ReclaimDisplay(Some(yearsLeft), h, slider);
      && v.Some?
      && v.value.reclaimedYears * WakingHours == yearsLeft as real * (HoursOf(h) - slider)
      && v.value.reclaimedFillY == SilhouetteHeight - SilhouetteHeight * (HoursOf(h) - slider) / WakingHours
      && v.value.currentFillY == SilhouetteHeight - SilhouetteHeight * slider / WakingHours
      && (v.value.visible <==> slider < HoursOf(h))
  {
    var years := yearsLeft as real;
    var d := HoursOf(h) - slider;
    var r := years * (HoursOf(h) / WakingHours) - years * (slider / WakingHours);
    assert r == years * d / WakingHours;
    assert r / years == d / WakingHours;
    assert r > 0.0 <==> d > 0.0 by {
      if d > 0.0 { assert years * d > 0.0; }
      if d <= 0.0 { assert years * d <= 0.0; }
    }
  }

  /** With the slider at the stored hours nothing is reclaimed and the
      overlay is hidden; with the slider at zero all the silhouette's screen
      years are reclaimed. */
  lemma ReclaimEndpoints(yearsLeft: int, h: Halves)
    requires yearsLeft > 0
    ensures var v := ReclaimDisplay(Some(yearsLeft), h, HoursOf(h));
      v.Some? && v.value.reclaimedYears == 0.0 && !v.value.visible
    ensures var v := ReclaimDisplay(Some(yearsLeft), h, 0.0);
      && v.Some? && SilhouetteYears(Some(yearsLeft), h).Some?
      && v.value.reclaimedYears == SilhouetteYears(Some(yearsLeft), h).value
  {
    ReclaimMeaning(yearsLeft, h, HoursOf(h));
  }

  /** Without a submitted age nothing is computed. */
  lemma ReclaimNeedsYearsLeft(h: Halves, slider: real)
    ensures ReclaimDisplay(None, h, slider).None?
    ensures ReclaimDisplay(Some(0), h, slider).None?
  {
  }
}
