/** Reconnecting rolled MCP workloads (`connection_strategy.py`): remove, wait, add. */
module Connection {
  import opened Common

  datatype Phase = Stable | Remove | WaitWorkload | Add

  datatype Plan = Plan(phase: Phase, removeNames: seq<string>, addNames: seq<string>,
                       reloadAfterRemove: bool, reloadAfterAdd: bool)

  datatype Event = RemoveDone | WorkloadReady | AddDone

  const IDLE := Plan(Stable, [], [], false, false)

  /** `plan_rollout`. */
  function PlanRollout(rolled: seq<string>, urlUnchanged: bool): Plan {
    var names := SortedKeys(set n | n in rolled && n != "");
    if names == [] || !urlUnchanged then IDLE else Plan(Remove, names, names, true, true)
  }

  function Next(p: Plan, e: Event): Plan {
    match e
    case RemoveDone =>
      if p.phase.Remove? then Plan(WaitWorkload, p.removeNames, p.addNames, false, p.reloadAfterAdd) else p
    case WorkloadReady => if p.phase.WaitWorkload? then Plan(Add, [], p.addNames, false, true) else p
    case AddDone => if p.phase.Add? then IDLE else p
  }

  function Run(p: Plan, events: seq<Event>): Plan
    decreases |events|
  {
    if events == [] then p else Run(Next(p, events[0]), events[1..])
  }

  /** Steps left. */
  function Rank(p: Phase): nat {
    match p case Remove => 3 case WaitWorkload => 2 case Add => 1 case Stable => 0
  }

  /** `filter_registry_names`. */
  function FilterNames(desired: seq<string>, removed: seq<string>): seq<string> {
    if desired == [] then []
    else (if desired[0] in removed then [] else [desired[0]]) + FilterNames(desired[1..], removed)
  }

  /** A plan some rollout can be at. */
  ghost predicate PlanOk(p: Plan, names: seq<string>) {
    match p.phase
    case Remove => p == Plan(Remove, names, names, true, true)
    case WaitWorkload => p == Plan(WaitWorkload, names, names, false, true)
    case Add => p == Plan(Add, [], names, false, true)
    case Stable => p == IDLE
  }

  lemma {:induction false} RunKeepsPlan(p: Plan, names: seq<string>, events: seq<Event>)
    requires PlanOk(p, names)
    ensures PlanOk(Run(p, events), names) && Rank(Run(p, events).phase) <= Rank(p.phase)
    decreases |events|
  {
    if events != [] {
      RunKeepsPlan(Next(p, events[0]), names, events[1..]);
    }
  }

  /** How many events of a run had an effect. */
  function Effective(p: Plan, events: seq<Event>): nat
    decreases |events|
  {
    if events == [] then 0 else (if Next(p, events[0]) != p then 1 else 0) + Effective(Next(p, events[0]), events[1..])
  }

  /** Events in any order: the phase only moves forward, one rank per effective event, never skipping one. */
  lemma {:induction false} EveryEffectiveEventAdvances(p: Plan, names: seq<string>, events: seq<Event>)
    requires PlanOk(p, names)
    ensures Effective(p, events) + Rank(Run(p, events).phase) == Rank(p.phase)
    decreases |events|
  {
    if events != [] {
      EveryEffectiveEventAdvances(Next(p, events[0]), names, events[1..]);
    }
  }

  lemma {:induction false} FilterMeans(desired: seq<string>, removed: seq<string>)
    ensures forall n :: n in FilterNames(desired, removed) <==> n in desired && n !in removed
    ensures removed == [] ==> FilterNames(desired, removed) == desired
    decreases |desired|
  {
    if desired != [] {
      FilterMeans(desired[1..], removed);
      assert desired == [desired[0]] + desired[1..];
    }
  }

  /** Until the workload is ready no rolled name is in the registry and every other one is; from the add
      phase on the registry is the full desired list, in its order. */
  lemma {:induction false} RegistryDuringRollout(rolled: seq<string>, urlUnchanged: bool, events: seq<Event>,
                                                 desired: seq<string>)
    ensures var p := Run(PlanRollout(rolled, urlUnchanged), events);
            var registry := FilterNames(desired, p.removeNames);
            if p.phase.Remove? || p.phase.WaitWorkload?
            then forall n :: n in registry <==> n in desired && !(n in rolled && n != "")
            else registry == desired
  {
    var names := SortedKeys(set n | n in rolled && n != "");
    SortedKeysFacts(set n | n in rolled && n != "");
    var p := Run(PlanRollout(rolled, urlUnchanged), events);
    RunKeepsPlan(PlanRollout(rolled, urlUnchanged), names, events);
    FilterMeans(desired, p.removeNames);
  }

  /** Every rolled name that was removed is added back, and reload happens after both. */
  lemma {:induction false} RemovedIsAddedBack(rolled: seq<string>, urlUnchanged: bool, events: seq<Event>)
    ensures var p := Run(PlanRollout(rolled, urlUnchanged), events);
            && (p.phase.Add? ==> p.addNames == PlanRollout(rolled, urlUnchanged).removeNames && p.reloadAfterAdd)
            && (forall n | n in p.removeNames :: n in p.addNames)
  {
    RunKeepsPlan(PlanRollout(rolled, urlUnchanged), SortedKeys(set n | n in rolled && n != ""), events);
  }

  /** The events of `order` happened, one after the other, whatever happened in between. */
  predicate Happened(events: seq<Event>, order: seq<Event>)
    decreases |events|
  {
    || order == []
    || (events != [] && Happened(events[1..], if events[0] == order[0] then order[1..] else order))
  }

  /** The whole plan of a rollout after any events: it waits for each of the three in turn, and deaf to all others. */
  lemma {:induction false} RolloutIs(rolled: seq<string>, urlUnchanged: bool, names: seq<string>, events: seq<Event>)
    requires StrictlySorted(names) && forall n :: n in names <==> n in rolled && n != ""
    ensures Run(PlanRollout(rolled, urlUnchanged), events) ==
            if names == [] || !urlUnchanged then Plan(Stable, [], [], false, false)
            else if Happened(events, [RemoveDone, WorkloadReady, AddDone]) then Plan(Stable, [], [], false, false)
            else if Happened(events, [RemoveDone, WorkloadReady]) then Plan(Add, [], names, false, true)
            else if Happened(events, [RemoveDone]) then Plan(WaitWorkload, names, names, false, true)
            else Plan(Remove, names, names, true, true)
  {
    SortedKeysUnique(names, set n | n in rolled && n != "");
    if names == [] || !urlUnchanged {
      StaysIdle(events);
    } else {
      FromRemove(names, events);
    }
  }

  lemma {:induction false} StaysIdle(events: seq<Event>)
    ensures Run(Plan(Stable, [], [], false, false), events) == Plan(Stable, [], [], false, false)
    decreases |events|
  {
    if events != [] { StaysIdle(events[1..]); }
  }

  lemma {:induction false} FromAdd(names: seq<string>, events: seq<Event>)
    ensures Run(Plan(Add, [], names, false, true), events) ==
            if Happened(events, [AddDone]) then Plan(Stable, [], [], false, false)
            else Plan(Add, [], names, false, true)
    decreases |events|
  {
    assert [AddDone][1..] == [];
    if events != [] {
      if events[0] == AddDone { StaysIdle(events[1..]); } else { FromAdd(names, events[1..]); }
    }
  }

  lemma {:induction false} FromWait(names: seq<string>, events: seq<Event>)
    ensures Run(Plan(WaitWorkload, names, names, false, true), events) ==
            if Happened(events, [WorkloadReady, AddDone]) then Plan(Stable, [], [], false, false)
            else if Happened(events, [WorkloadReady]) then Plan(Add, [], names, false, true)
            else Plan(WaitWorkload, names, names, false, true)
    decreases |events|
  {
    assert [WorkloadReady, AddDone][1..] == [AddDone] && [WorkloadReady][1..] == [];
    if events != [] {
      if events[0] == WorkloadReady { FromAdd(names, events[1..]); } else { FromWait(names, events[1..]); }
    }
  }

  lemma {:induction false} FromRemove(names: seq<string>, events: seq<Event>)
    ensures Run(Plan(Remove, names, names, true, true), events) ==
            if Happened(events, [RemoveDone, WorkloadReady, AddDone]) then Plan(Stable, [], [], false, false)
            else if Happened(events, [RemoveDone, WorkloadReady]) then Plan(Add, [], names, false, true)
            else if Happened(events, [RemoveDone]) then Plan(WaitWorkload, names, names, false, true)
            else Plan(Remove, names, names, true, true)
    decreases |events|
  {
    assert [RemoveDone, WorkloadReady, AddDone][1..] == [WorkloadReady, AddDone];
    assert [RemoveDone, WorkloadReady][1..] == [WorkloadReady] && [RemoveDone][1..] == [];
    if events != [] {
      if events[0] == RemoveDone { FromWait(names, events[1..]); } else { FromRemove(names, events[1..]); }
    }
  }
}
