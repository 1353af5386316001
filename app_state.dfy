/** The page's shared `state` record and the handlers that write it (app.js):
    the dial and its fallback field, the tick marks and calendar days that
    updateClock refreshes, age submission with the life grid it builds, and
    the silhouette / reclaim slider. */
module AppState {
  import opened Numerics
  import opened Dial
  import LifeGrid
  import Reclaim

  /** state.lifeExpectancy */
  const LifeExpectancy: int := 77

  /** generateCalendar creates this many days. */
  const CalendarDays: int := 30

  /** A calendar day: created plain, later given the `filled` class and a
      target fill percentage by updateCalendar. */
  datatype CalendarDay = Unfilled | Filled(targetFill: real)

  /** submitAge's test `age && age > 0 && age < state.lifeExpectancy` on the
      parseInt reading (None stands for NaN). */
  function AcceptedAge(input: Option<int>): (a: Option<int>)
    ensures a.Some? <==> input.Some? && 0 < input.value < LifeExpectancy
    ensures a.Some? ==> a == input
  {
    match input
    case None => None
    case Some(age) => if age != 0 && age > 0 && age < LifeExpectancy then Some(age) else None
  }

  /** Ages 0, 77 and 80 and an unreadable entry are refused; 40 is accepted. */
  lemma AgeSubmissionExamples()
    ensures AcceptedAge(Some(0)).None? && AcceptedAge(Some(77)).None?
    ensures AcceptedAge(Some(80)).None? && AcceptedAge(None).None?
    ensures AcceptedAge(Some(40)) == Some(40)
  {
  }

  class App {
    /** state.hours, in half-hours */
    var hours: Halves
    /** state.age and state.yearsLeft (null until an age is accepted) */
    var age: Option<int>
    var yearsLeft: Option<int>
    /** the dial's isDragging flag and whether the scroll prompt was shown */
    var dragging: bool
    var promptShown: bool
    /** the reclaim slider's value */
    var slider: real
    /** what updateSilhouette and updateReclaimDisplay last wrote */
    var silhouetteYears: Option<real>
    var reclaim: Option<Reclaim.ReclaimView>
    /** the life grid's weeks, and whether the sections after it are shown */
    var lifeGrid: seq<LifeGrid.Week>
    var sectionsShown: bool
    /** the `active` class of each dial tick mark */
    const ticks: array<bool>
    /** the days of the monthly calendar */
    const calendar: array<CalendarDay>

    ghost predicate Valid()
      reads this
    {
      && (age.Some? <==> yearsLeft.Some?)
      && (age.Some? ==> 0 < age.value < LifeExpectancy
                        && yearsLeft.value == LifeExpectancy - age.value
                        && |lifeGrid| == LifeGrid.TotalWeeks && sectionsShown)
      && (age.None? ==> lifeGrid == [] && !sectionsShown && silhouetteYears.None? && reclaim.None?)
      && calendar.Length == CalendarDays
    }

    /** Ticks and calendar days as updateTickMarks and updateCalendar leave
        them for the stored hours. */
    ghost predicate ClockShown()
      reads this, ticks, calendar
    {
      && (forall i :: 0 <= i < ticks.Length ==> (ticks[i] <==> i < ActiveTickCount(hours)))
      && (forall d :: 0 <= d < calendar.Length ==> calendar[d] == Filled(100.0 * FillFraction(hours)))
    }

    /** The silhouette and reclaim view as updateSilhouette leaves them: the
        slider back at the stored hours, nothing reclaimed, overlay hidden. */
    ghost predicate SilhouetteReset()
      reads this
    {
      && slider == HoursOf(hours)
      && silhouetteYears == Reclaim.SilhouetteYears(yearsLeft, hours)
      && reclaim == Reclaim.ReclaimDisplay(yearsLeft, hours, slider)
      && reclaim.Some? && reclaim.value.reclaimedYears == 0.0 && !reclaim.value.visible
    }

    /** DOMContentLoaded: initClock runs updateClock(0), which clears every
        tick, before generateCalendar creates the 30 days, so the days start
        unfilled.  The slider starts at whatever the markup gives it. */
    constructor (tickCount: nat, sliderInit: real)
      ensures Valid() && fresh(ticks) && fresh(calendar)
      ensures hours == 0 && age.None? && yearsLeft.None?
      ensures !dragging && !promptShown && slider == sliderInit
      ensures ticks.Length == tickCount && forall i :: 0 <= i < tickCount ==> !ticks[i]
      ensures forall d :: 0 <= d < CalendarDays ==> calendar[d] == Unfilled
    {
      hours := QuantizeFraction(0.0);
      age, yearsLeft := None, None;
      dragging, promptShown := false, false;
      slider := sliderInit;
      silhouetteYears, reclaim := None, None;
      lifeGrid, sectionsShown := [], false;
      ticks := new bool[tickCount](_ => false);
      calendar := new CalendarDay[CalendarDays](_ => Unfilled);
    }

    /** updateTickMarks: tick i is active exactly when i < floor(hours). */
    method UpdateTickMarks()
      modifies ticks
      ensures forall i :: 0 <= i < ticks.Length ==> (ticks[i] <==> i < ActiveTickCount(hours))
    {
      var activeTickCount := ActiveTickCount(hours);
      for index := 0 to ticks.Length
        invariant forall i :: 0 <= i < index ==> (ticks[i] <==> i < activeTickCount)
      {
        if index < activeTickCount {
          ticks[index] := true;
        } else {
          ticks[index] := false;
        }
      }
    }

    /** updateCalendar: every day gets `filled` and the fill percentage. */
    method UpdateCalendar()
      modifies calendar
      ensures forall d :: 0 <= d < calendar.Length ==>
                calendar[d] == Filled(100.0 * FillFraction(hours))
    {
      var fillPercent := HoursOf(hours) / WakingHours * 100.0;
      for d := 0 to calendar.Length
        invariant forall e :: 0 <= e < d ==> calendar[e] == Filled(100.0 * FillFraction(hours))
      {
        calendar[d] := Filled(fillPercent);
      }
    }

    /** updateReclaimDisplay: guarded on yearsLeft, recomputes the reclaim
        view from the slider. */
    method UpdateReclaimDisplay()
      requires Valid()
      modifies this
      ensures Valid()
      ensures old(yearsLeft).Some? ==> reclaim == Reclaim.ReclaimDisplay(yearsLeft, hours, slider)
      ensures old(yearsLeft).None? ==> reclaim == old(reclaim)
      ensures hours == old(hours) && age == old(age) && yearsLeft == old(yearsLeft)
      ensures slider == old(slider) && silhouetteYears == old(silhouetteYears)
      ensures dragging == old(dragging) && promptShown == old(promptShown)
      ensures lifeGrid == old(lifeGrid) && sectionsShown == old(sectionsShown)
    {
      if !Reclaim.Applicable(yearsLeft) {
        return;
      }
      reclaim := Reclaim.ReclaimDisplay(yearsLeft, hours, slider);
    }

    /** updateSilhouette: guarded on yearsLeft, writes the screen years, puts
        the reclaim slider back to the stored hours and redraws the reclaim
        view, which then shows nothing reclaimed and hides the overlay. */
    method UpdateSilhouette()
      requires Valid()
      modifies this
      ensures Valid()
      ensures old(yearsLeft).Some? ==> SilhouetteReset()
      ensures old(yearsLeft).None? ==>
        slider == old(slider) && silhouetteYears == old(silhouetteYears) && reclaim == old(reclaim)
      ensures hours == old(hours) && age == old(age) && yearsLeft == old(yearsLeft)
      ensures dragging == old(dragging) && promptShown == old(promptShown)
      ensures lifeGrid == old(lifeGrid) && sectionsShown == old(sectionsShown)
    {
      if !Reclaim.Applicable(yearsLeft) {
        return;
      }
      silhouetteYears := Reclaim.SilhouetteYears(yearsLeft, hours);
      slider := HoursOf(hours);
      UpdateReclaimDisplay();
      Reclaim.ReclaimEndpoints(yearsLeft.value, hours);
    }

    /** updateClock: store the quantised hours, then refresh the ticks, the
        calendar and, once an age is known, the silhouette. */
    method UpdateClock(frac: real)
      requires Valid()
      modifies this, ticks, calendar
      ensures Valid()
      ensures hours == QuantizeFraction(frac) && ClockShown()
      ensures old(yearsLeft).Some? ==> SilhouetteReset()
      ensures old(yearsLeft).None? ==>
        slider == old(slider) && silhouetteYears == old(silhouetteYears) && reclaim == old(reclaim)
      ensures age == old(age) && yearsLeft == old(yearsLeft)
      ensures dragging == old(dragging) && promptShown == old(promptShown)
      ensures lifeGrid == old(lifeGrid) && sectionsShown == old(sectionsShown)
    {
      hours := QuantizeFraction(frac);
      UpdateTickMarks();
      UpdateCalendar();
      if Reclaim.Applicable(yearsLeft) {
        UpdateSilhouette();
      }
    }

    /** onMouseDown / touchstart: start dragging and update at once. */
    method PointerDown(frac: real)
      requires Valid()
      modifies this, ticks, calendar
      ensures Valid() && dragging
      ensures hours == QuantizeFraction(frac) && ClockShown()
      ensures old(yearsLeft).Some? ==> SilhouetteReset()
      ensures old(yearsLeft).None? ==>
        slider == old(slider) && silhouetteYears == old(silhouetteYears) && reclaim == old(reclaim)
      ensures age == old(age) && yearsLeft == old(yearsLeft) && promptShown == old(promptShown)
      ensures lifeGrid == old(lifeGrid) && sectionsShown == old(sectionsShown)
    {
      dragging := true;
      PointerMove(frac);
    }

    /** onMouseMove / touchmove: only a drag moves the dial. */
    method PointerMove(frac: real)
      requires Valid()
      modifies this, ticks, calendar
      ensures Valid()
      ensures old(dragging) ==> hours == QuantizeFraction(frac) && ClockShown()
      ensures old(dragging) && old(yearsLeft).Some? ==> SilhouetteReset()
      ensures old(yearsLeft).None? ==>
        slider == old(slider) && silhouetteYears == old(silhouetteYears) && reclaim == old(reclaim)
      ensures !old(dragging) ==> unchanged(this) && unchanged(ticks) && unchanged(calendar)
      ensures age == old(age) && yearsLeft == old(yearsLeft)
      ensures dragging == old(dragging) && promptShown == old(promptShown)
      ensures lifeGrid == old(lifeGrid) && sectionsShown == old(sectionsShown)
    {
      if !dragging {
        return;
      }
      UpdateClock(frac);
    }

    /** onMouseUp / touchend: stop dragging; show the scroll prompt once
        some hours are set. */
    method PointerUp()
      requires Valid()
      modifies this
      ensures Valid() && !dragging
      ensures promptShown == (old(promptShown) || hours > 0)
      ensures hours == old(hours) && age == old(age) && yearsLeft == old(yearsLeft)
      ensures slider == old(slider) && reclaim == old(reclaim)
      ensures silhouetteYears == old(silhouetteYears)
      ensures lifeGrid == old(lifeGrid) && sectionsShown == old(sectionsShown)
    {
      dragging := false;
      if hours > 0 {
        promptShown := true;
      }
    }

    /** The fallback field's input handler. */
    method FallbackInput(input: Option<real>)
      requires Valid()
      modifies this, ticks, calendar
      ensures Valid()
      ensures hours == QuantizeFraction(FallbackFraction(input)) && ClockShown()
      ensures old(yearsLeft).Some? ==> SilhouetteReset()
      ensures input.None? ==> hours == 0
      ensures input.Some? ==> hours == Round(2.0 * Clamp(0.0, WakingHours, input.value))
      ensures old(yearsLeft).None? ==>
        slider == old(slider) && silhouetteYears == old(silhouetteYears) && reclaim == old(reclaim)
      ensures age == old(age) && yearsLeft == old(yearsLeft)
      ensures dragging == old(dragging) && promptShown == old(promptShown)
      ensures lifeGrid == old(lifeGrid) && sectionsShown == old(sectionsShown)
    {
      UpdateClock(FallbackFraction(input));
      match input {
        case Some(v) => FallbackRoundsClamped(v);
        case None => FallbackRoundsClamped(0.0);
      }
    }

    /** The reclaim slider's input handler. */
    method SliderInput(value: real)
      requires Valid()
      modifies this
      ensures Valid()
      ensures slider == value
      ensures old(yearsLeft).Some? ==> reclaim == Reclaim.ReclaimDisplay(yearsLeft, hours, value)
      ensures old(yearsLeft).None? ==> reclaim == old(reclaim)
      ensures hours == old(hours) && age == old(age) && yearsLeft == old(yearsLeft)
      ensures silhouetteYears == old(silhouetteYears)
      ensures dragging == old(dragging) && promptShown == old(promptShown)
      ensures lifeGrid == old(lifeGrid) && sectionsShown == old(sectionsShown)
    {
      slider := value;
      UpdateReclaimDisplay();
    }

    /** submitAge: an accepted age is stored with its years left, the life
        grid is built from the current hours and the later sections are
        shown; any other reading changes nothing. */
    method SubmitAge(input: Option<int>) returns (accepted: bool)
      requires Valid()
      modifies this
      ensures Valid()
      ensures accepted <==> AcceptedAge(input).Some?
      ensures !accepted ==> unchanged(this)
      ensures accepted ==>
        && age == input && yearsLeft == Some(LifeExpectancy - input.value)
        && lifeGrid == LifeGrid.Grid(input.value, hours) && sectionsShown
      ensures hours == old(hours) && slider == old(slider) && dragging == old(dragging)
      ensures promptShown == old(promptShown)
      ensures silhouetteYears == old(silhouetteYears) && reclaim == old(reclaim)
    {
      var a := AcceptedAge(input);
      if a.None? {
        return false;
      }
      accepted := true;
      age := a;
      yearsLeft := Some(LifeExpectancy - a.value);
      var grid := LifeGrid.GenerateLifeGrid(a.value, hours);
      lifeGrid := grid;
      sectionsShown := true;
    }

    /** The delayed initSilhouetteAnimation after the sections are shown: its
        state effect is one updateSilhouette. */
    method InitSilhouetteAnimation()
      requires Valid()
      modifies this
      ensures Valid()
      ensures old(yearsLeft).Some? ==> SilhouetteReset()
      ensures old(yearsLeft).None? ==>
        slider == old(slider) && silhouetteYears == old(silhouetteYears) && reclaim == old(reclaim)
      ensures hours == old(hours) && age == old(age) && yearsLeft == old(yearsLeft)
      ensures dragging == old(dragging) && promptShown == old(promptShown)
      ensures lifeGrid == old(lifeGrid) && sectionsShown == old(sectionsShown)
    {
      UpdateSilhouette();
    }
  }
}
