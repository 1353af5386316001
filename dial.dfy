/** The input side of the page: the daily-hours dial and its numeric
    fallback field (app.js, initClock).  The stored value `state.hours` is
    always a multiple of 0.5 in [0, wakingHours]; it is held here as a count
    of half-hours. */
module Dial {
  import opened Numerics

  /** state.wakingHours */
  const WakingHours: real := 16.0

  /** The largest storable value, in half-hours (16 h). */
  const MaxHalves: int := 32

  /** state.hours, counted in half-hours. */
  type Halves = h: int | 0 <= h <= 32

  function HoursOf(h: Halves): (r: real)
    ensures 0.0 <= r <= WakingHours
  {
    h as real / 2.0
  }

  /** updateClock: the dial fraction (angle / 2π) is scaled to waking hours,
      clamped to [0, wakingHours] and rounded to the nearest 0.5 (ties up). */
  function QuantizeFraction(frac: real): (h: Halves)
    ensures var x := Clamp(0.0, WakingHours, frac * WakingHours);
            x - 0.25 < HoursOf(h) <= x + 0.25
  {
    var hours := Clamp(0.0, WakingHours, frac * WakingHours);
    Round(hours * 2.0)
  }

  /** The fallback field: parseFloat(value) || 0 (an absent or NaN reading
      becomes 0), clamped, turned into the dial fraction updateClock takes. */
  function FallbackFraction(input: Option<real>): (frac: real)
    ensures 0.0 <= frac <= 1.0
  {
    var hours := match input case Some(v) => v case None => 0.0;
    var clamped := Clamp(0.0, WakingHours, hours);
    clamped / WakingHours
  }

  /** Both input paths converge: entering v in the fallback field stores the
      clamped value rounded to the nearest half hour; nothing else. */
  lemma FallbackRoundsClamped(v: real)
    ensures QuantizeFraction(FallbackFraction(Some(v))) == Round(2.0 * Clamp(0.0, WakingHours, v))
    ensures QuantizeFraction(FallbackFraction(None)) == 0
  {
    var c := Clamp(0.0, WakingHours, v);
    assert FallbackFraction(Some(v)) * WakingHours == c;
  }

  /** No drift: feeding a stored value back through the fallback field (the
      dial writes state.hours into it) or through the dial at the angle it
      draws gives the same stored value. */
  lemma QuantizeIsStable(h: Halves)
    ensures QuantizeFraction(HoursOf(h) / WakingHours) == h
    ensures QuantizeFraction(FallbackFraction(Some(HoursOf(h)))) == h
  {
    assert HoursOf(h) / WakingHours * WakingHours == HoursOf(h);
    RoundUnique(HoursOf(h) * 2.0, h);
  }

  /** Turning the dial further never stores fewer hours. */
  lemma QuantizeMonotone(f: real, g: real)
    requires f <= g
    ensures QuantizeFraction(f) <= QuantizeFraction(g)
  {
    var x := Clamp(0.0, WakingHours, f * WakingHours);
    var y := Clamp(0.0, WakingHours, g * WakingHours);
    assert x <= y;
    RoundMonotone(x * 2.0, y * 2.0);
  }

  /** updateTickMarks: Math.floor(state.hours) ticks are lit, i.e. the number
      of whole hours. */
  function ActiveTickCount(h: Halves): (n: int)
    ensures 2 * n <= h < 2 * n + 2
    ensures 0 <= n <= 16
  {
    Floor(HoursOf(h))
  }

  /** hours / wakingHours, the one ratio behind every fill on the page (dial
      arc, mini clocks, calendar days, year bar, silhouette). */
  function FillFraction(h: Halves): (f: real)
    ensures 0.0 <= f <= 1.0
    ensures f * 32.0 == h as real
  {
    HoursOf(h) / WakingHours
  }
}
