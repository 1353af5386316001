/** generateLifeGrid (app.js): the 80-year grid of weeks, each week classed
    as lived, scroll (screen time) or free.  Lived weeks fill the start of the
    grid; the scroll band is anchored at the grid's far end. */
module LifeGrid {
  import opened Numerics
  import opened Dial

  /** The grid always spans 80 years; this is not the life expectancy (77)
      used to validate ages. */
  const GridYears: int := 80
  const WeeksPerYear: int := 52
  const TotalWeeks: int := GridYears * WeeksPerYear

  datatype Week = Lived | Scroll | Free

  /** ageInWeeks: 52 weeks per year of age; within the grid's 80 years it
      fits in the grid. */
  function AgeInWeeks(age: nat): (w: int)
    ensures 0 <= w && (age <= GridYears ==> w <= TotalWeeks)
  {
    age * WeeksPerYear
  }

  /** remainingWeeks: the weeks of the grid after the lived ones. */
  function RemainingWeeks(age: nat): (r: int)
    ensures r <= TotalWeeks && (age <= GridYears ==> 0 <= r)
  {
    TotalWeeks - AgeInWeeks(age)
  }

  /** totalScrollWeeks: the remaining weeks scaled by the fill fraction and
      rounded.  Within the grid's 80 years it never exceeds the remaining
      weeks. */
  function ScrollWeeks(age: nat, h: Halves): (s: int)
    ensures age <= GridYears ==> 0 <= s <= RemainingWeeks(age)
    ensures -16 < 32 * s - RemainingWeeks(age) * h <= 16
  {
    RoundScaled(RemainingWeeks(age), h);
    Round(RemainingWeeks(age) as real * FillFraction(h))
  }

  /** Rounding n · fill lands within half a week of the exact product, and
      inside [0, n] for non-negative n. */
  lemma RoundScaled(n: int, h: Halves)
    ensures var r := Round(n as real * FillFraction(h));
      -16 < 32 * r - n * h <= 16 && (0 <= n ==> 0 <= r <= n)
  {
    var p := n * h;
    ScaledAsQuotient(n, h);
    var r := Round(p as real / 32.0);
    assert -16 < 32 * r - p <= 16;
    if 0 <= n {
      assert 0 <= p <= 32 * n;
    }
  }

  lemma ScaledAsQuotient(n: int, h: Halves)
    ensures n as real * FillFraction(h) == (n * h) as real / 32.0
  {
    assert FillFraction(h) == h as real / 32.0;
    assert (n * h) as real == n as real * h as real;
  }

  /** The class of week i, as the loop body decides it. */
  function Classify(i: int, age: nat, h: Halves): (w: Week)
    ensures w == Lived <==> i < AgeInWeeks(age)
  {
    if i < AgeInWeeks(age) then Lived
    else if TotalWeeks - 1 - i < ScrollWeeks(age, h) then Scroll
    else Free
  }

  /** The three classes are index ranges: lived [0, 52·age), free up to the
      scroll band, scroll the last ScrollWeeks indices before the end. */
  lemma ClassifyIsPartition(i: int, age: nat, h: Halves)
    requires age <= GridYears && 0 <= i < TotalWeeks
    ensures Classify(i, age, h) == Lived <==> i < AgeInWeeks(age)
    ensures Classify(i, age, h) == Scroll <==> TotalWeeks - ScrollWeeks(age, h) <= i
    ensures Classify(i, age, h) == Free <==>
              AgeInWeeks(age) <= i < TotalWeeks - ScrollWeeks(age, h)
  {
  }

  /** The loop of generateLifeGrid: one class per week index, in order. */
  method GenerateLifeGrid(age: nat, h: Halves) returns (grid: seq<Week>)
    ensures |grid| == TotalWeeks
    ensures forall i :: 0 <= i < TotalWeeks ==> grid[i] == Classify(i, age, h)
  {
    var ageInWeeks := age * WeeksPerYear;
    var remainingWeeks := TotalWeeks - ageInWeeks;
    var totalScrollWeeks := Round(remainingWeeks as real * FillFraction(h));
    grid := [];
    for i := 0 to TotalWeeks
      invariant |grid| == i
      invariant forall j :: 0 <= j < i ==> grid[j] == Classify(j, age, h)
    {
      var week;
      if i < ageInWeeks {
        week := Lived;
      } else {
        var weeksUntilDeath := TotalWeeks - 1 - i;
        if weeksUntilDeath < totalScrollWeeks {
          week := Scroll;
        } else {
          week := Free;
        }
      }
      grid := grid + [week];
    }
  }

  /** The whole grid as a value, for stating its counting laws. */
  function Grid(age: nat, h: Halves): (g: seq<Week>)
    ensures |g| == TotalWeeks
    ensures forall i :: 0 <= i < TotalWeeks ==> g[i] == Classify(i, age, h)
  {
    seq(TotalWeeks, i requires 0 <= i < TotalWeeks => Classify(i, age, h))
  }

  function Count(g: seq<Week>, w: Week): (n: nat)
    ensures n <= |g|
  {
    if g == [] then 0 else (if g[0] == w then 1 else 0) + Count(g[1..], w)
  }

  lemma {:induction false} CountAppend(a: seq<Week>, b: seq<Week>, w: Week)
    ensures Count(a + b, w) == Count(a, w) + Count(b, w)
  {
    if a == [] {
      assert a + b == b;
    } else {
      assert (a + b)[1..] == a[1..] + b;
      CountAppend(a[1..], b, w);
    }
  }

  lemma {:induction false} CountUniform(n: nat, v: Week, w: Week)
    ensures Count(seq(n, _ => v), w) == if v == w then n else 0
  {
    if n > 0 {
      assert seq(n, _ => v)[1..] == seq(n - 1, _ => v);
      CountUniform(n - 1, v, w);
    }
  }

  /** The counting laws: 52·age lived weeks, ScrollWeeks scroll weeks, the
      rest of the remaining weeks free, and the three add up to the grid. */
  lemma GridCounts(age: nat, h: Halves)
    requires age <= GridYears
    ensures Count(Grid(age, h), Lived) == AgeInWeeks(age)
    ensures Count(Grid(age, h), Scroll) == ScrollWeeks(age, h)
    ensures Count(Grid(age, h), Free) == RemainingWeeks(age) - ScrollWeeks(age, h)
    ensures Count(Grid(age, h), Lived) + Count(Grid(age, h), Scroll)
            + Count(Grid(age, h), Free) == TotalWeeks
  {
    var l, s := AgeInWeeks(age), ScrollWeeks(age, h);
    var f := TotalWeeks - l - s;
    var lived, free, scroll := seq(l, _ => Lived), seq(f, _ => Free), seq(s, _ => Scroll);
    var g := Grid(age, h);
    forall i | 0 <= i < TotalWeeks
      ensures g[i] == (lived + free + scroll)[i]
    {
      ClassifyIsPartition(i, age, h);
    }
    assert g == lived + free + scroll;
    forall w: Week
      ensures Count(g, w) == Count(lived, w) + Count(free, w) + Count(scroll, w)
    {
      CountAppend(lived + free, scroll, w);
      CountAppend(lived, free, w);
    }
    CountUniform(l, Lived, Lived);
    CountUniform(l, Lived, Scroll);
    CountUniform(l, Lived, Free);
    CountUniform(f, Free, Lived);
    CountUniform(f, Free, Scroll);
    CountUniform(f, Free, Free);
    CountUniform(s, Scroll, Lived);
    CountUniform(s, Scroll, Scroll);
    CountUniform(s, Scroll, Free);
  }

  /** Age 30 at eight hours a day: 1560 lived weeks, 2600 remaining, of which
      1300 are scroll weeks. */
  lemma GridAtThirtyEightHours()
    ensures AgeInWeeks(30) == 1560 && RemainingWeeks(30) == 2600
    ensures ScrollWeeks(30, 16) == 1300
    ensures forall i :: 0 <= i < 1560 ==> Classify(i, 30, 16) == Lived
    ensures forall i :: 1560 <= i < 2860 ==> Classify(i, 30, 16) == Free
    ensures forall i :: 2860 <= i < TotalWeeks ==> Classify(i, 30, 16) == Scroll
  {
    RoundUnique(2600.0 * FillFraction(16), 1300);
  }
}
