/** The scrollytelling steps (app.js, initScrollytelling,
    updateScrollyCounter, triggerStepAnimations): which step text and which
    visualisation carry `active`, the value the big counter tweens to, and the
    one-shot animation each step entry fires. */
module Scrollytelling {
  import opened Numerics
  import opened Dial
  import Stats

  /** The `data-step` name of a step element. */
  datatype StepName = Daily | Weekly | Monthly | Yearly | Opportunity | Other(name: string)

  /** The value the counter tweens to when a step is entered. */
  function CounterValue(step: StepName, h: Halves): (v: real)
    ensures 0.0 <= v
  {
    var hours := HoursOf(h);
    match step
    case Daily => hours
    case Weekly => hours * 7.0
    case Monthly => Round(hours * 30.0) as real
    case Yearly => Round(hours * 365.0) as real
    case Opportunity => Round(hours * 365.0) as real
    case Other(_) => hours
  }

  /** The snap granularity of the counter tween. */
  function CounterSnap(step: StepName): (s: real)
    ensures s == 0.5 <==> step == Daily || step == Weekly
    ensures s == 0.5 || s == 1.0
  {
    if step == Daily || step == Weekly then 0.5 else 1.0
  }

  /** What the counter's onUpdate shows for a raw tweened value: the nearest
      half for daily/weekly, the nearest whole number otherwise. */
  function CounterDisplay(step: StepName, raw: real): (d: real)
    ensures step == Daily || step == Weekly ==> raw - 0.25 < d <= raw + 0.25
    ensures step != Daily && step != Weekly ==> raw - 0.5 < d <= raw + 0.5
    ensures Floor(d / CounterSnap(step)) as real * CounterSnap(step) == d
  {
    if step == Daily || step == Weekly then
      HalfOnGrid(Round(raw * 2.0));
      Round(raw * 2.0) as real / 2.0
    else
      WholeOnGrid(Round(raw));
      Round(raw) as real
  }

  /** The counter agrees with the stat panels: each step's target is the
      matching figure of the time breakdown. */
  lemma CounterMatchesBreakdown(h: Halves)
    ensures var b := Stats.TimeBreakdown(h);
      && CounterValue(Daily, h) == b.daily
      && CounterValue(Weekly, h) == b.weekly
      && CounterValue(Monthly, h) == b.monthly as real
      && CounterValue(Yearly, h) == b.yearly as real
      && CounterValue(Opportunity, h) == b.yearly as real
      && (forall n :: CounterValue(Other(n), h) == b.daily)
  {
  }

  /** For the five named steps every target lies on its step's snap grid, so
      the tween ends exactly on it and the shown value at the end of the tween
      is the target itself. */
  lemma CounterOnSnapGrid(step: StepName, h: Halves)
    requires !step.Other?
    ensures var v, s := CounterValue(step, h), CounterSnap(step);
      Floor(v / s) as real * s == v
    ensures CounterDisplay(step, CounterValue(step, h)) == CounterValue(step, h)
  {
    match step
    case Daily => HalfOnGrid(h);
    case Weekly => HalfOnGrid(7 * h);
    case Monthly => WholeOnGrid(Round(HoursOf(h) * 30.0));
    case Yearly => WholeOnGrid(Round(HoursOf(h) * 365.0));
    case Opportunity => WholeOnGrid(Round(HoursOf(h) * 365.0));
  }

  lemma HalfOnGrid(n: int)
    ensures Floor((n as real / 2.0) / 0.5) as real * 0.5 == n as real / 2.0
    ensures Round(n as real / 2.0 * 2.0) as real / 2.0 == n as real / 2.0
  {
    assert (n as real / 2.0) / 0.5 == n as real;
    assert n as real / 2.0 * 2.0 == n as real;
    RoundUnique(n as real, n);
  }

  lemma WholeOnGrid(n: int)
    ensures Floor(n as real / 1.0) as real * 1.0 == n as real
    ensures Round(n as real) as real == n as real
  {
    RoundUnique(n as real, n);
  }

  /** The animation triggerStepAnimations starts for a step, if any. */
  datatype Animation = ScrollyClock | WeekClocks | CalendarFill | YearBar

  function AnimationOf(step: StepName): (a: Option<Animation>)
    ensures a.None? <==> step.Opportunity? || step.Other?
    ensures step == Daily ==> a == Some(ScrollyClock)
    ensures step == Weekly ==> a == Some(WeekClocks)
    ensures step == Monthly ==> a == Some(CalendarFill)
    ensures step == Yearly ==> a == Some(YearBar)
  {
    match step
    case Daily => Some(ScrollyClock)
    case Weekly => Some(WeekClocks)
    case Monthly => Some(CalendarFill)
    case Yearly => Some(YearBar)
    case _ => None
  }

  /** One counter tween: its target and its snap. */
  datatype Counter = Counter(target: real, snap: real)

  /** The step machine's state: currentStep, the `active` class of each step
      element and of each visualisation, and the logs of counter tweens and
      animation triggers fired so far. */
  datatype Stage = Stage(
    current: Option<StepName>,
    stepActive: seq<bool>,
    vizActive: seq<bool>,
    counters: seq<Counter>,
    triggers: seq<StepName>)

  /** document.querySelector(`.viz-${name}`): the first visualisation with that
      name, if any. */
  function FirstViz(vizNames: seq<StepName>, name: StepName): (k: Option<nat>)
    ensures k.Some? ==> k.value < |vizNames| && vizNames[k.value] == name
    ensures k.Some? ==> forall j :: 0 <= j < k.value ==> vizNames[j] != name
    ensures k.None? <==> name !in vizNames
  {
    if vizNames == [] then None
    else if vizNames[0] == name then Some(0)
    else match FirstViz(vizNames[1..], name)
      case None => None
      case Some(k) => Some(k + 1)
  }

  /** activateStep on a stage whose steps are named `names`. */
  function Activate(s: Stage, names: seq<StepName>, vizNames: seq<StepName>, index: nat, h: Halves): (t: Stage)
    requires index < |names|
    ensures t.current == Some(names[index])
    ensures |t.triggers| <= |s.triggers| + 1 && |t.counters| <= |s.counters| + 1
  {
    var name := names[index];
    if s.current == Some(name) then s
    else
      var target := FirstViz(vizNames, name);
      Stage(
        Some(name),
        seq(|names|, j => j == index),
        seq(|vizNames|, j => target == Some(j)),
        s.counters + [Counter(CounterValue(name, h), CounterSnap(name))],
        s.triggers + [name])
  }

  /** deactivateStep: only the step's own class is removed. */
  function Deactivate(s: Stage, index: nat): (t: Stage)
    requires index < |s.stepActive|
    ensures |t.stepActive| == |s.stepActive| && !t.stepActive[index]
  {
    s.(stepActive := s.stepActive[index := false])
  }

  /** Re-entering the current step is a no-op: no class changes, no counter
      tween, no animation trigger. */
  lemma ReentryIsNoop(s: Stage, names: seq<StepName>, vizNames: seq<StepName>, index: nat, h: Halves)
    requires index < |names| && s.current == Some(names[index])
    ensures Activate(s, names, vizNames, index, h) == s
  {
  }

  /** Entering a step that is not current makes it current and the only
      active step, activates exactly the first visualisation of its name,
      and fires one counter tween and one animation trigger. */
  lemma ActivateNewStep(s: Stage, names: seq<StepName>, vizNames: seq<StepName>, index: nat, h: Halves)
    requires index < |names| && s.current != Some(names[index])
    ensures var t := Activate(s, names, vizNames, index, h);
      && t.current == Some(names[index])
      && |t.stepActive| == |names|
      && (forall j :: 0 <= j < |names| ==> (t.stepActive[j] <==> j == index))
      && |t.vizActive| == |vizNames|
      && (forall j :: 0 <= j < |vizNames| ==>
            (t.vizActive[j] <==> vizNames[j] == names[index]
                                 && forall k :: 0 <= k < j ==> vizNames[k] != names[index]))
      && t.counters == s.counters + [Counter(CounterValue(names[index], h), CounterSnap(names[index]))]
      && t.triggers == s.triggers + [names[index]]
  {
    var name := names[index];
    var target := FirstViz(vizNames, name);
    forall j | 0 <= j < |vizNames| && vizNames[j] == name
                && forall k :: 0 <= k < j ==> vizNames[k] != name
      ensures target == Some(j)
    {
      assert name in vizNames;
    }
  }

  /** Leaving a step keeps currentStep and fires nothing. */
  lemma DeactivateKeepsCurrent(s: Stage, index: nat)
    requires index < |s.stepActive|
    ensures var t := Deactivate(s, index);
      && t.current == s.current && t.vizActive == s.vizActive
      && t.counters == s.counters && t.triggers == s.triggers
      && |t.stepActive| == |s.stepActive| && !t.stepActive[index]
      && forall j :: 0 <= j < |s.stepActive| && j != index ==> t.stepActive[j] == s.stepActive[j]
  {
  }

  /** Because leaving a step does not clear currentStep, scrolling back into
      the step just left (onEnterBack after onLeave) is skipped by the guard:
      the step's text stays inactive and its animation does not replay. */
  lemma ReentryAfterLeaveStaysInactive(s: Stage, names: seq<StepName>, vizNames: seq<StepName>, index: nat, h: Halves)
    requires index < |names| && |s.stepActive| == |names|
    ensures var left := Deactivate(Activate(s, names, vizNames, index, h), index);
      var back := Activate(left, names, vizNames, index, h);
      && back == left
      && !back.stepActive[index]
      && |back.triggers| <= |s.triggers| + 1
  {
    var a := Activate(s, names, vizNames, index, h);
    assert a.current == Some(names[index]);
    assert |a.stepActive| == |names|;
  }

  /** The step machine of one page: the step and visualisation elements and
      the closure variable currentStep. */
  class Steps {
    const names: seq<StepName>
    const vizNames: seq<StepName>
    const stepActive: array<bool>
    const vizActive: array<bool>
    var current: Option<StepName>
    var counters: seq<Counter>
    var triggers: seq<StepName>

    ghost predicate Valid()
      reads this
    {
      stepActive.Length == |names| && vizActive.Length == |vizNames| && stepActive != vizActive
    }

    ghost function State(): Stage
      reads this, stepActive, vizActive
    {
      Stage(current, stepActive[..], vizActive[..], counters, triggers)
    }

    /** initScrollytelling: currentStep starts null; the classes are whatever
        the page markup gives. */
    constructor (names: seq<StepName>, vizNames: seq<StepName>,
                 stepInit: seq<bool>, vizInit: seq<bool>)
      requires |stepInit| == |names| && |vizInit| == |vizNames|
      ensures Valid() && fresh(stepActive) && fresh(vizActive)
      ensures this.names == names && this.vizNames == vizNames
      ensures State() == Stage(None, stepInit, vizInit, [], [])
    {
      this.names := names;
      this.vizNames := vizNames;
      stepActive := new bool[|stepInit|](i requires 0 <= i < |stepInit| => stepInit[i]);
      vizActive := new bool[|vizInit|](i requires 0 <= i < |vizInit| => vizInit[i]);
      current := None;
      counters := [];
      triggers := [];
    }

    /** activateStep(step, index), reading state.hours as h. */
    method ActivateStep(index: nat, h: Halves)
      requires Valid() && index < |names|
      modifies this, stepActive, vizActive
      ensures Valid()
      ensures State() == Activate(old(State()), names, vizNames, index, h)
    {
      var name := names[index];
      if current == Some(name) {
        assert State() == old(State());
        return;
      }
      current := Some(name);

      ClearActive(stepActive);
      stepActive[index] := true;
      ClearActive(vizActive);
      var target := FirstViz(vizNames, name);
      if target.Some? {
        vizActive[target.value] := true;
      }

      counters := counters + [Counter(CounterValue(name, h), CounterSnap(name))];
      triggers := triggers + [name];

      assert stepActive[..] == seq(|names|, j => j == index);
      assert vizActive[..] == seq(|vizNames|, j => target == Some(j));
    }

    /** `elements.forEach(e => e.classList.remove('active'))` */
    static method ClearActive(active: array<bool>)
      modifies active
      ensures forall k :: 0 <= k < active.Length ==> !active[k]
    {
      for j := 0 to active.Length
        invariant forall k :: 0 <= k < j ==> !active[k]
      {
        active[j] := false;
      }
    }

    /** deactivateStep(step). */
    method DeactivateStep(index: nat)
      requires Valid() && index < |names|
      modifies stepActive
      ensures Valid()
      ensures State() == Deactivate(old(State()), index)
    {
      stepActive[index] := false;
    }
  }
}
