/** The derived statistics of updateAllStats and updateOpportunityCosts
    (app.js): pure functions of the stored half-hours. */
module Stats {
  import opened Numerics
  import opened Dial

  /** The time breakdown shown in the daily/weekly/monthly/yearly panels.
      Values shown with one decimal are held in tenths. */
  datatype Breakdown = Breakdown(
    daily: real,
    weekly: real,
    monthly: int,
    monthlyDaysTenths: int,
    yearly: int,
    yearlyDays: int,
    yearlyMonthsTenths: int)

  function TimeBreakdown(h: Halves): (b: Breakdown)
    ensures 0 <= b.monthly <= b.yearly && 0 <= b.yearlyDays
    ensures 0.0 <= b.daily && 0.0 <= b.weekly && 0 <= b.monthlyDaysTenths && 0 <= b.yearlyMonthsTenths
  {
    var hours := HoursOf(h);
    var monthly := Round(hours * 30.0);
    var yearly := Round(hours * 365.0);
    var yearlyDays := Round(yearly as real / 24.0);
    Breakdown(
      hours,
      hours * 7.0,
      monthly,
      Round(monthly as real / 24.0 * 10.0),
      yearly,
      yearlyDays,
      Round(yearlyDays as real / 30.0 * 10.0))
  }

  /** What the rounding policy amounts to on half-hour inputs: the weekly and
      monthly figures are exact, the yearly figure is 365·hours rounded half
      up, and each day/month figure is within half a display unit of the
      exact quotient of the figure it is derived from. */
  lemma BreakdownRounding(h: Halves)
    ensures var b := TimeBreakdown(h);
      && b.daily == HoursOf(h)
      && b.weekly == 7.0 * HoursOf(h)
      && b.monthly == 15 * h
      && (2 * b.yearly == 365 * h || 2 * b.yearly == 365 * h + 1)
      && -12 < 24 * b.yearlyDays - b.yearly <= 12
      && -12 < 24 * b.monthlyDaysTenths - 10 * b.monthly <= 12
      && -15 < 30 * b.yearlyMonthsTenths - 10 * b.yearlyDays <= 15
  {
    var hours := HoursOf(h);
    RoundUnique(hours * 30.0, 15 * h);
    RoundUnique(hours * 365.0, (365 * h + 1) / 2);
  }

  /** Every figure of the breakdown grows with the daily hours. */
  lemma BreakdownMonotone(h: Halves, k: Halves)
    requires h <= k
    ensures var a, b := TimeBreakdown(h), TimeBreakdown(k);
      && a.daily <= b.daily && a.weekly <= b.weekly
      && a.monthly <= b.monthly && a.monthlyDaysTenths <= b.monthlyDaysTenths
      && a.yearly <= b.yearly && a.yearlyDays <= b.yearlyDays
      && a.yearlyMonthsTenths <= b.yearlyMonthsTenths
  {
    var a, b := TimeBreakdown(h), TimeBreakdown(k);
    RoundMonotone(HoursOf(h) * 30.0, HoursOf(k) * 30.0);
    RoundMonotone(HoursOf(h) * 365.0, HoursOf(k) * 365.0);
    RoundMonotone(a.monthly as real / 24.0 * 10.0, b.monthly as real / 24.0 * 10.0);
    RoundMonotone(a.yearly as real / 24.0, b.yearly as real / 24.0);
    RoundMonotone(a.yearlyDays as real / 30.0 * 10.0, b.yearlyDays as real / 30.0 * 10.0);
  }

  /** Eight hours a day: 56 h a week, 240 h (10.0 days) a month, 2920 h
      (122 days, 4.1 months) a year. */
  lemma BreakdownAtEightHours()
    ensures TimeBreakdown(16) == Breakdown(8.0, 56.0, 240, 100, 2920, 122, 41)
  {
    RoundUnique(240.0, 240);
    RoundUnique(2400.0 / 24.0, 100);
    RoundUnique(2920.0, 2920);
    RoundUnique(2920.0 / 24.0, 122);
    RoundUnique(122.0 / 30.0 * 10.0, 41);
  }

  /** Hours-per-unit constants of the opportunity panel. */
  const HoursPerBook: real := 6.0
  const HoursPerLanguage: real := 600.0
  const HoursPerCamino: real := 200.0

  /** The opportunity panel; the language count is shown with one decimal,
      held here in tenths. */
  datatype Opportunity = Opportunity(books: int, languagesTenths: int, camino: int)

  function OpportunityCosts(h: Halves): (o: Opportunity)
    ensures 0 <= o.camino <= o.books && 0 <= o.languagesTenths
  {
    var yearlyHours := HoursOf(h) * 365.0;
    FloorMonotone(yearlyHours / HoursPerCamino, yearlyHours / HoursPerBook);
    Opportunity(
      Floor(yearlyHours / HoursPerBook),
      Round(yearlyHours / HoursPerLanguage * 10.0),
      Floor(yearlyHours / HoursPerCamino))
  }

  /** The label next to the book count: singular exactly for one book. */
  function BookLabel(o: Opportunity): (s: string)
    ensures s == "book" <==> o.books == 1
    ensures s == "book" || s == "books"
  {
    if o.books == 1 then "book" else "books"
  }

  /** The label next to the language count: singular exactly when the shown
      one-decimal figure reads 1.0. */
  function LanguageLabel(o: Opportunity): (s: string)
    ensures s == "language" <==> o.languagesTenths == 10
    ensures s == "language" || s == "languages"
  {
    if o.languagesTenths == 10 then "language" else "languages"
  }

  /** The opportunity figures are the yearly hours divided by the per-unit
      constants: books and Camino walks rounded down, languages to a tenth. */
  lemma OpportunityBounds(h: Halves)
    ensures var o, y := OpportunityCosts(h), 365 * h;
      && 0 <= 12 * o.books <= y < 12 * o.books + 12
      && 0 <= 400 * o.camino <= y < 400 * o.camino + 400
      && -60 < 120 * o.languagesTenths - y <= 60
  {
  }

  /** More screen time never shows fewer books, languages or walks. */
  lemma OpportunityMonotone(h: Halves, k: Halves)
    requires h <= k
    ensures var a, b := OpportunityCosts(h), OpportunityCosts(k);
      a.books <= b.books && a.languagesTenths <= b.languagesTenths && a.camino <= b.camino
  {
    var x, y := HoursOf(h) * 365.0, HoursOf(k) * 365.0;
    FloorMonotone(x / HoursPerBook, y / HoursPerBook);
    RoundMonotone(x / HoursPerLanguage * 10.0, y / HoursPerLanguage * 10.0);
    FloorMonotone(x / HoursPerCamino, y / HoursPerCamino);
  }

  /** On the half-hour grid the singular branches are never taken: the book
      count jumps from 0 to 30 at half an hour a day, and the language figure
      jumps from 0.9 at 1.5 h to 1.2 at 2 h, skipping 1.0. */
  lemma LabelsAlwaysPlural(h: Halves)
    ensures BookLabel(OpportunityCosts(h)) == "books"
    ensures LanguageLabel(OpportunityCosts(h)) == "languages"
    ensures OpportunityCosts(0).books == 0 && OpportunityCosts(1).books == 30
    ensures OpportunityCosts(3).languagesTenths == 9 && OpportunityCosts(4).languagesTenths == 12
  {
    OpportunityBounds(h);
  }
}
