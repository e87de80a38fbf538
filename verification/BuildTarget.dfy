/**
 The parallel build of one stage, see scripts/Build-Target. Which job ends next, and with which
 result, is not known; neither is the order in which bash lists the keys of an array.
 */
module BuildTarget {
  import opened Wrappers

  type Target = string

  datatype Status = Pending | Running | Done | Failed

  // `forced` is a start although dependencies are missing.
  datatype Event = Start(t: Target, forced: bool) | End(t: Target, ok: bool)

  // ----- what a run has done so far -----

  function Started(log: seq<Event>): set<Target> {
    if log == [] then {} else
      var e := log[|log| - 1];
      Started(log[..|log| - 1]) + if e.Start? then {e.t} else {}
  }

  function Ended(log: seq<Event>, ok: bool): set<Target> {
    if log == [] then {} else
      var e := log[|log| - 1];
      Ended(log[..|log| - 1], ok) + if e.End? && e.ok == ok then {e.t} else {}
  }

  function Busy(log: seq<Event>): set<Target> {
    Started(log) - Ended(log, true) - Ended(log, false)
  }

  // A stage: its targets in their order, what each of them needs in this stage, and the job slots
  datatype Stage = Stage(targets: seq<Target>, needs: map<Target, set<Target>>, jobs: nat) {
    ghost predicate Ok() {
      && NoRepeats(targets) && needs.Keys == Set(targets) && jobs > 0
      && forall t :: t in targets ==> needs[t] <= Set(targets)
    }
  }

  function Set(ts: seq<Target>): set<Target> {
    set t | t in ts
  }

  ghost predicate NoRepeats(ts: seq<Target>) {
    forall i, j :: 0 <= i < j < |ts| ==> ts[i] != ts[j]
  }

  ghost predicate Ready(s: Stage, log: seq<Event>, t: Target)
    requires t in s.needs
  {
    s.needs[t] <= Ended(log, true)
  }

  // No target that has not been started can be.
  ghost predicate Stuck(s: Stage, log: seq<Event>) {
    Busy(log) == {} && forall t :: t in s.targets && t in s.needs && t !in Started(log) ==> !Ready(s, log, t)
  }

  // What may happen next. A target is started at most once, while there is a job slot and nothing
  // has failed, with all it needs done, or else when nothing runs and nothing can.
  ghost predicate Legal(s: Stage, log: seq<Event>, e: Event) {
    match e
    case Start(t, forced) =>
      && t in s.targets && t in s.needs && t !in Started(log) && |Busy(log)| < s.jobs && Ended(log, false) == {}
      && if forced then Stuck(s, log) else Ready(s, log, t)
    case End(t, _) => t in Busy(log)
  }

  ghost predicate LegalRun(s: Stage, log: seq<Event>) {
    log == [] || (LegalRun(s, log[..|log| - 1]) && Legal(s, log[..|log| - 1], log[|log| - 1]))
  }

  lemma AfterStart(log: seq<Event>, t: Target, forced: bool)
    ensures var log' := log + [Start(t, forced)];
      && log'[..|log|] == log && Started(log') == Started(log) + {t}
      && Ended(log', true) == Ended(log, true) && Ended(log', false) == Ended(log, false)
  {
    assert (log + [Start(t, forced)])[..|log|] == log;
  }

  lemma AfterEnd(log: seq<Event>, t: Target, ok: bool)
    ensures var log' := log + [End(t, ok)];
      && log'[..|log|] == log && Started(log') == Started(log)
      && Ended(log', ok) == Ended(log, ok) + {t} && Ended(log', !ok) == Ended(log, !ok)
  {
    assert (log + [End(t, ok)])[..|log|] == log;
  }

  // ----- consequences for every run -----

  ghost predicate Bounded(s: Stage, log: seq<Event>) {
    && |Busy(log)| <= s.jobs
    && Ended(log, true) <= Started(log) <= Set(s.targets) && Ended(log, false) <= Started(log)
    && Ended(log, true) !! Ended(log, false)
  }

  lemma BoundedAfterStart(s: Stage, log: seq<Event>, t: Target, forced: bool)
    requires Bounded(s, log) && Legal(s, log, Start(t, forced))
    ensures Bounded(s, log + [Start(t, forced)])
  {
    hide Started, Ended, Ready, Stuck;
    AfterStart(log, t, forced);
    var busy := Busy(log);
    assert Busy(log + [Start(t, forced)]) == busy + {t};
    assert |busy + {t}| == |busy| + 1;
    assert t in Set(s.targets);
  }

  lemma BoundedAfterEnd(s: Stage, log: seq<Event>, t: Target, ok: bool)
    requires Bounded(s, log) && t in Busy(log)
    ensures Bounded(s, log + [End(t, ok)])
  {
    hide Started, Ended, Set;
    AfterEnd(log, t, ok);
    var busy := Busy(log);
    assert Busy(log + [End(t, ok)]) == busy - {t};
    assert |busy - {t}| == |busy| - 1;
  }

  lemma BoundedAfter(s: Stage, log: seq<Event>, e: Event)
    requires Bounded(s, log) && Legal(s, log, e)
    ensures Bounded(s, log + [e])
  {
    match e
    case Start(t, forced) =>
      hide Bounded;
      BoundedAfterStart(s, log, t, forced);
    case End(t, ok) =>
      hide Bounded;
      BoundedAfterEnd(s, log, t, ok);
  }

  lemma NothingBounded(s: Stage)
    ensures Bounded(s, [])
  {
  }

  // No more targets run than there are job slots.
  lemma {:induction false} JobsBounded(s: Stage, log: seq<Event>)
    requires LegalRun(s, log)
    ensures Bounded(s, log)
  {
    hide Started, Ended, Busy, Bounded, Legal;
    if log == [] {
      NothingBounded(s);
    } else {
      var before := log[..|log| - 1];
      JobsBounded(s, before);
      BoundedAfter(s, before, log[|log| - 1]);
      assert before + [log[|log| - 1]] == log;
    }
  }

  // No target is started twice.
  lemma {:induction false} StartedOnce(s: Stage, log: seq<Event>, i: nat, j: nat)
    requires LegalRun(s, log) && i < j < |log| && log[i].Start? && log[j].Start?
    ensures log[i].t != log[j].t
  {
    if j < |log| - 1 {
      StartedOnce(s, log[..|log| - 1], i, j);
    } else {
      InStarted(log[..j], i);
    }
  }

  lemma {:induction false} InStarted(log: seq<Event>, i: nat)
    requires i < |log| && log[i].Start?
    ensures log[i].t in Started(log)
  {
    if i < |log| - 1 { InStarted(log[..|log| - 1], i); }
  }

  // What a target needs is done before it is started, unless the start was forced.
  lemma {:induction false} NeedsFirst(s: Stage, log: seq<Event>, i: nat)
    requires LegalRun(s, log) && i < |log| && log[i].Start? && !log[i].forced
    ensures log[i].t in s.needs && s.needs[log[i].t] <= Ended(log[..i], true)
  {
    if i < |log| - 1 {
      NeedsFirst(s, log[..|log| - 1], i);
      assert log[..|log| - 1][..i] == log[..i];
    }
  }

  // ----- the scheduler -----

  // The state of a target, as the run has made it
  function StatusOf(l: seq<Event>, t: Target): Status {
    if t in Ended(l, true) then Done
    else if t in Ended(l, false) then Failed
    else if t in Started(l) then Running
    else Pending
  }

  // What is built is no longer listed.
  ghost predicate Listed(s: Stage, log: seq<Event>, targets: seq<Target>, deplist: set<Target>) {
    deplist == Set(s.targets) - Ended(log, true) && NoRepeats(targets) && Set(targets) == deplist
  }

  ghost predicate Tracked(s: Stage, log: seq<Event>, state: map<Target, Status>) {
    state.Keys == Set(s.targets) && forall t :: t in state ==> state[t] == StatusOf(log, t)
  }

  // The dependencies that are left: none that is missing has been taken away.
  ghost predicate Reduced(s: Stage, log: seq<Event>, deplist: set<Target>, deps: map<Target, seq<Target>>)
  {
    && deps.Keys == deplist && deplist <= s.needs.Keys
    && forall t :: t in deplist ==> Set(deps[t]) <= s.needs[t] <= Set(deps[t]) + Ended(log, true)
  }

  ghost predicate Known(s: Stage, log: seq<Event>, targets: seq<Target>, deplist: set<Target>,
      deps: map<Target, seq<Target>>, state: map<Target, Status>) {
    && s.Ok() && LegalRun(s, log) && Bounded(s, log)
    && Listed(s, log, targets, deplist) && Tracked(s, log, state) && Reduced(s, log, deplist, deps)
  }

  lemma KnownAtFirst(ts: seq<Target>, deps: map<Target, seq<Target>>, jobs: nat, needs: map<Target, set<Target>>,
      reduced: map<Target, seq<Target>>, state: map<Target, Status>)
    requires NoRepeats(ts) && deps.Keys == Set(ts) && jobs > 0
    requires needs.Keys == reduced.Keys == deps.Keys && forall t ::
      t in deps ==> needs[t] == Set(deps[t]) * Set(ts) == Set(reduced[t])
    requires state.Keys == Set(ts) && forall t :: t in state ==> state[t] == Pending
    ensures Known(Stage(ts, needs, jobs), [], ts, Set(ts), reduced, state)
  {
  }

  lemma LegalNext(s: Stage, log: seq<Event>, e: Event)
    requires LegalRun(s, log) && Legal(s, log, e)
    ensures LegalRun(s, log + [e])
  {
    assert (log + [e])[..|log|] == log;
  }

  lemma KnownAfterStart(s: Stage, log: seq<Event>, targets: seq<Target>, deplist: set<Target>,
      deps: map<Target, seq<Target>>, state: map<Target, Status>, t: Target, forced: bool)
    requires Known(s, log, targets, deplist, deps, state) && Legal(s, log, Start(t, forced))
    ensures Known(s, log + [Start(t, forced)], targets, deplist, deps, state[t := Running])
  {
    hide Started, Ended, Ready, Stuck, NoRepeats, LegalRun, Bounded;
    AfterStart(log, t, forced);
    LegalNext(s, log, Start(t, forced));
    BoundedAfter(s, log, Start(t, forced));
    assert Bounded(s, log) ==> Ended(log, true) <= Started(log) && Ended(log, false) <= Started(log) by {
      EndedStarted(s, log);
    }
  }

  lemma EndedStarted(s: Stage, log: seq<Event>)
    ensures Bounded(s, log) ==>
      Ended(log, true) <= Started(log) <= Set(s.targets) && Ended(log, false) <= Started(log) &&
      Ended(log, true) !! Ended(log, false)
  {
  }

  lemma KnownAfterDone(s: Stage, log: seq<Event>, targets: seq<Target>, deplist: set<Target>,
      deps: map<Target, seq<Target>>, state: map<Target, Status>, t: Target)
    requires Known(s, log, targets, deplist, deps, state) && t in Busy(log)
    ensures Known(s, log + [End(t, true)], Removed(targets, t), deplist - {t}, Unset(deps, t), state[t := Done])
  {
    hide Started, Ended, Ready, Stuck, NoRepeats, LegalRun, Bounded, Listed, Reduced;
    AfterEnd(log, t, true);
    LegalNext(s, log, End(t, true));
    BoundedAfter(s, log, End(t, true));
    EndedStarted(s, log);
    EndedLists(s, log, targets, deplist, t);
    EndedReduces(s, log, deplist, deps, t);
  }

  lemma KnownAfterFailure(s: Stage, log: seq<Event>, targets: seq<Target>, deplist: set<Target>,
      deps: map<Target, seq<Target>>, state: map<Target, Status>, t: Target)
    requires Known(s, log, targets, deplist, deps, state) && t in Busy(log)
    ensures Known(s, log + [End(t, false)], targets, deplist, deps, state[t := Failed])
  {
    hide Started, Ended, Ready, Stuck, NoRepeats, LegalRun, Bounded;
    AfterEnd(log, t, false);
    LegalNext(s, log, End(t, false));
    BoundedAfter(s, log, End(t, false));
    EndedStarted(s, log);
  }

  lemma ReadyFacts(s: Stage, log: seq<Event>, targets: seq<Target>, deplist: set<Target>,
      deps: map<Target, seq<Target>>, state: map<Target, Status>, t: Target)
    requires Known(s, log, targets, deplist, deps, state) && t in deplist
    ensures t in deps && t in s.needs
    ensures forall i ::
      0 <= i < |deps[t]| ==> deps[t][i] in state && (state[deps[t][i]] == Done <==> deps[t][i] in Ended(log, true))
    ensures Ready(s, log, t) <==> forall i :: 0 <= i < |deps[t]| ==> deps[t][i] in Ended(log, true)
  {
    hide Started, Ended, LegalRun, Bounded, Listed;
    assert forall i :: 0 <= i < |deps[t]| ==> deps[t][i] in Set(deps[t]);
    assert s.needs[t] <= Set(s.targets) by { assert t in s.targets; }
  }

  lemma BusyFacts(s: Stage, log: seq<Event>, targets: seq<Target>, deplist: set<Target>, deps: map<Target, seq<Target>>,
      state: map<Target, Status>)
    requires Known(s, log, targets, deplist, deps, state)
    ensures Busy(log) <= deplist && forall t :: t in deplist ==> t in state && (state[t] == Running <==> t in Busy(log))
  {
    hide Started, Ended, LegalRun, Reduced, NoRepeats;
  }

  // What the fields tell of the run
  lemma StateFacts(s: Stage, log: seq<Event>, targets: seq<Target>, deplist: set<Target>,
      deps: map<Target, seq<Target>>, state: map<Target, Status>)
    requires Known(s, log, targets, deplist, deps, state)
    ensures s.jobs > 0 && LegalRun(s, log) && |Busy(log)| <= s.jobs && s.needs.Keys == Set(s.targets)
    ensures deplist == Set(s.targets) - Ended(log, true) && Set(targets) == deplist && deplist <= state.Keys
    ensures Ended(log, true) <= Started(log) <= Set(s.targets) && Ended(log, false) <= deplist && Busy(log) <= deplist
    ensures forall t :: t in deplist ==>
      && (state[t] == Pending <==> t !in Started(log)) && (state[t] == Running <==> t in Busy(log))
      && (state[t] == Failed <==> t in Ended(log, false)) && state[t] != Done
  {
    hide Started, Ended, Reduced, NoRepeats;
  }

  ghost predicate Waits(s: Stage, log: seq<Event>, t: Target) {
    t in s.needs && (t in Started(log) || !Ready(s, log, t))
  }

  lemma AllWait(s: Stage, log: seq<Event>, targets: seq<Target>, deplist: set<Target>, deps: map<Target, seq<Target>>,
      state: map<Target, Status>, order: seq<Target>)
    requires Known(s, log, targets, deplist, deps, state) && Busy(log) == {} && Set(order) == deplist
    requires forall j :: 0 <= j < |order| ==> Waits(s, log, order[j])
    ensures Stuck(s, log)
  {
    StateFacts(s, log, targets, deplist, deps, state);
    hide Known, Ended, Started, Ready;
    forall t | t in s.targets && t in s.needs && t !in Started(log) ensures !Ready(s, log, t) {
      assert t in Set(s.targets);
      assert t in Set(order);
      var j :| 0 <= j < |order| && order[j] == t;
      assert Waits(s, log, order[j]);
    }
  }

  lemma NowBusy(s: Stage, log: seq<Event>, t: Target, forced: bool)
    requires t !in Ended(log, true) && t !in Ended(log, false)
    ensures t in Busy(log + [Start(t, forced)])
  {
    AfterStart(log, t, forced);
  }

  lemma StuckIdle(s: Stage, log: seq<Event>)
    requires Stuck(s, log)
    ensures Busy(log) == {}
  {
  }

  lemma Idle()
    ensures Busy([]) == {}
  {
  }

  lemma FewerBusy(busy: set<Target>, ended: set<Target>)
    requires ended != {} && ended <= busy
    ensures |busy - ended| < |busy|
  {
    var t :| t in ended;
    assert busy - ended <= busy - {t};
    Smaller(busy - ended, busy - {t});
  }

  lemma Smaller(a: set<Target>, b: set<Target>)
    requires a <= b
    ensures |a| <= |b|
  {
    assert b == a + (b - a);
  }

  // The targets among some that have ended with a result
  function Results(ended: map<Target, bool>, ok: bool, among: set<Target>): set<Target> {
    set t | t in ended && ended[t] == ok && t in among
  }

  lemma NoResults(ended: map<Target, bool>)
    ensures forall ok :: Results(ended, ok, {}) == {}
  {
  }

  lemma NextResults(ended: map<Target, bool>, among: set<Target>, t: Target)
    ensures forall ok :: Results(ended, ok, among + {t}) == Results(ended, ok, among) + if t in ended && ended[t] == ok
      then {t} else {}
  {
  }

  lemma StillBusy(log: seq<Event>, log': seq<Event>, ended: map<Target, bool>, among: set<Target>, t: Target)
    requires Started(log') == Started(log) && ended.Keys <= Busy(log) && t in ended && t !in among
    requires forall ok :: Ended(log', ok) == Ended(log, ok) + Results(ended, ok, among)
    ensures t in Busy(log')
  {
    assert t !in Results(ended, true, among) && t !in Results(ended, false, among);
    assert Ended(log', true) == Ended(log, true) + Results(ended, true, among);
    assert Ended(log', false) == Ended(log, false) + Results(ended, false, among);
  }

  lemma AllResults(log: seq<Event>, log': seq<Event>, ended: map<Target, bool>, among: set<Target>)
    requires Started(log') == Started(log) && ended.Keys <= among
    requires Ended(log', true) == Ended(log, true) + Results(ended, true, among)
    requires Ended(log', false) == Ended(log, false) + Results(ended, false, among)
    ensures Busy(log') == Busy(log) - ended.Keys
    ensures forall ok :: Results(ended, ok, among) == Results(ended, ok, ended.Keys)
  {
    hide Started, Ended;
    assert forall t :: t in ended <==> t in Results(ended, true, among) || t in Results(ended, false, among);
  }

  // A round takes a target from the list, or meets a failure.
  lemma Progress(all: set<Target>, done: set<Target>, done': set<Target>, failed': set<Target>,
      ended: map<Target, bool>)
    requires ended.Keys != {} && ended.Keys <= all - done
    requires done' == done + Results(ended, true, ended.Keys) && failed' == Results(ended, false, ended.Keys)
    ensures |all - done'| < |all - done| || (done' == done && failed' != {})
  {
    var now := Results(ended, true, ended.Keys);
    if now != {} {
      FewerBusy(all - done, now);
      assert all - done' == all - done - now;
    } else {
      var t :| t in ended.Keys;
      assert t in failed';
      assert done' == done;
    }
  }

  lemma {:induction false} RemovedSet(ts: seq<Target>, t: Target)
    ensures Set(Removed(ts, t)) <= Set(ts) <= Set(Removed(ts, t)) + {t}
  {
    if ts != [] {
      RemovedSet(ts[1..], t);
      assert ts == [ts[0]] + ts[1..];
      if ts[0] != t { assert Set(Removed(ts, t)) == {ts[0]} + Set(Removed(ts[1..], t)); }
      assert Set(ts) == {ts[0]} + Set(ts[1..]);
    }
  }

  lemma {:induction false} RemovedOnce(ts: seq<Target>, t: Target)
    requires NoRepeats(ts)
    ensures NoRepeats(Removed(ts, t)) && t !in Removed(ts, t)
  {
    if ts != [] {
      RemovedOnce(ts[1..], t);
      RemovedSet(ts[1..], t);
      if ts[0] != t {
        var r := Removed(ts[1..], t);
        assert forall x :: x in r ==> x in Set(r) && x in Set(ts[1..]);
        assert ts[0] !in ts[1..];
        assert ts[0] !in r;
        assert Removed(ts, t) == [ts[0]] + r;
      } else {
        assert forall j :: 0 < j < |ts| ==> ts[j] != t;
      }
    }
  }

  lemma EndedLists(s: Stage, log: seq<Event>, targets: seq<Target>, deplist: set<Target>, t: Target)
    requires Listed(s, log, targets, deplist)
    ensures Listed(s, log + [End(t, true)], Removed(targets, t), deplist - {t})
  {
    AfterEnd(log, t, true);
    RemovedSet(targets, t);
    RemovedOnce(targets, t);
    assert t !in Set(Removed(targets, t));
  }

  lemma EndedReduces(s: Stage, log: seq<Event>, deplist: set<Target>, deps: map<Target, seq<Target>>, t: Target)
    requires Reduced(s, log, deplist, deps)
    ensures Reduced(s, log + [End(t, true)], deplist - {t}, Unset(deps, t))
  {
    AfterEnd(log, t, true);
    forall d | d in deplist && d != t
      ensures Set(Removed(deps[d], t)) <= s.needs[d] <= Set(Removed(deps[d], t)) + Ended(log + [End(t, true)], true)
    {
      RemovedSet(deps[d], t);
    }
  }

  lemma SetNext(ts: seq<Target>, i: nat)
    requires NoRepeats(ts) && i < |ts|
    ensures Set(ts[..i + 1]) == Set(ts[..i]) + {ts[i]} && ts[i] !in Set(ts[..i]) && ts[i] in Set(ts)
  {
    assert ts[..i + 1] == ts[..i] + [ts[i]];
  }

  lemma SetEnds(ts: seq<Target>)
    ensures Set(ts[..0]) == {} && Set(ts[..|ts|]) == Set(ts)
  {
    assert ts[..|ts|] == ts;
  }

  // The list without the first `t`
  function Removed(ts: seq<Target>, t: Target): seq<Target> {
    if ts == [] then [] else if ts[0] == t then ts[1..] else [ts[0]] + Removed(ts[1..], t)
  }

  // `unset dependencies[$t]`, and `t` taken from the others
  function Unset(deps: map<Target, seq<Target>>, t: Target): map<Target, seq<Target>> {
    map d | d in deps && d != t :: Removed(deps[d], t)
  }

  // The entries of a list that are in a set
  function Within(ts: seq<Target>, s: set<Target>): seq<Target> {
    if ts == [] then [] else (if ts[0] in s then [ts[0]] else []) + Within(ts[1..], s)
  }

  lemma {:induction false} WithinSet(ts: seq<Target>, s: set<Target>)
    ensures Set(Within(ts, s)) == Set(ts) * s
  {
    if ts != [] {
      WithinSet(ts[1..], s);
      assert ts == [ts[0]] + ts[1..];
      assert Set(ts) == {ts[0]} + Set(ts[1..]);
      assert Set(Within(ts, s)) == (if ts[0] in s then {ts[0]} else {}) + Set(Within(ts[1..], s));
    }
  }

  class Scheduler {
    const stage: Stage
    var targets: seq<Target>
    var deplist: set<Target>
    var dependencies: map<Target, seq<Target>>
    var state: map<Target, Status>
    ghost var log: seq<Event>

    ghost predicate Valid()
      reads this
    {
      Known(stage, log, targets, deplist, dependencies, state)
    }

    // The beginning of `pkgloop_parallel`: only what is built in this stage counts as a dependency.
    constructor (ts: seq<Target>, deps: map<Target, seq<Target>>, jobs: nat)
      requires NoRepeats(ts) && deps.Keys == Set(ts) && jobs > 0
      ensures Valid() && log == []
      ensures stage == Stage(ts, map t | t in deps :: Set(deps[t]) * Set(ts), jobs)
    {
      stage := Stage(ts, map t | t in deps :: Set(deps[t]) * Set(ts), jobs);
      targets, deplist := ts, Set(ts);
      dependencies := map t | t in deps :: Within(deps[t], Set(ts));
      state := map t | t in Set(ts) :: Pending;
      log := [];
      forall t | t in deps
        ensures Set(Within(deps[t], Set(ts))) == Set(deps[t]) * Set(ts)
      {
        WithinSet(deps[t], Set(ts));
      }
      hide Known;
      KnownAtFirst(ts, deps, jobs, map t | t in deps :: Set(deps[t]) * Set(ts),
                   map t | t in deps :: Within(deps[t], Set(ts)), map t | t in Set(ts) :: Pending);
    }

    // `${!deplist[@]}`: the keys in some order
    method Keys() returns (order: seq<Target>)
      ensures Set(order) == deplist && NoRepeats(order)
    {
      order := [];
      var rest := deplist;
      while rest != {}
        invariant Set(order) + rest == deplist && Set(order) !! rest && NoRepeats(order)
        decreases rest
      {
        var t :| t in rest;
        order, rest := order + [t], rest - {t};
      }
    }

    // `is_ready`
    method IsReady(t: Target) returns (ready: bool)
      requires Valid() && t in deplist
      ensures t in stage.needs && (ready <==> Ready(stage, log, t))
    {
      hide Known, Ready, Ended;
      ReadyFacts(stage, log, targets, deplist, dependencies, state, t);
      var ds := dependencies[t];
      var i := 0;
      while i < |ds|
        invariant 0 <= i <= |ds| && forall j :: 0 <= j < i ==> ds[j] in Ended(log, true)
      {
        if state[ds[i]] != Done { return false; }
        i := i + 1;
      }
      return true;
    }

    // `running_count`
    method RunningCount() returns (n: nat)
      requires Valid()
      ensures n == |Busy(log)|
    {
      hide Known, Busy, NoRepeats, Set;
      BusyFacts(stage, log, targets, deplist, dependencies, state);
      var order := Keys();
      SetEnds(order);
      n := 0;
      var i := 0;
      while i < |order|
        invariant 0 <= i <= |order| && n == |Busy(log) * Set(order[..i])|
      {
        SetNext(order, i);
        if state[order[i]] == Running {
          assert Busy(log) * Set(order[..i + 1]) == Busy(log) * Set(order[..i]) + {order[i]};
          n := n + 1;
        } else {
          assert Busy(log) * Set(order[..i + 1]) == Busy(log) * Set(order[..i]);
        }
        i := i + 1;
      }
      assert Busy(log) * deplist == Busy(log);
    }

    // `start_target`
    method StartTarget(t: Target, ghost forced: bool)
      requires Valid() && Legal(stage, log, Start(t, forced))
      modifies `state, `log
      ensures Valid() && log == old(log) + [Start(t, forced)]
    {
      hide Known, Legal;
      KnownAfterStart(stage, log, targets, deplist, dependencies, state, t, forced);
      state := state[t := Running];
      log := log + [Start(t, forced)];
    }

    // `end_target`
    method EndTarget(t: Target, ok: bool)
      requires Valid() && t in Busy(log)
      modifies this
      ensures Valid() && log == old(log) + [End(t, ok)]
    {
      hide Known, Busy;
      if ok {
        KnownAfterDone(stage, log, targets, deplist, dependencies, state, t);
        state := state[t := Done];
        targets := Removed(targets, t);
        deplist := deplist - {t};
        dependencies := Unset(dependencies, t);
      } else {
        KnownAfterFailure(stage, log, targets, deplist, dependencies, state, t);
        state := state[t := Failed];
      }
      log := log + [End(t, ok)];
    }

    // The first loop of a round
    method AnyFailed() returns (failed: bool)
      requires Valid()
      ensures failed <==> Ended(log, false) != {}
    {
      hide Known, NoRepeats;
      StateFacts(stage, log, targets, deplist, dependencies, state);
      var order := Keys();
      var i := 0;
      while i < |order|
        invariant 0 <= i <= |order| && forall j :: 0 <= j < i ==> order[j] !in Ended(log, false)
      {
        assert order[i] in Set(order);
        if state[order[i]] == Failed { return true; }
        i := i + 1;
      }
      assert forall t :: t in Ended(log, false) ==> t in Set(order);
      return false;
    }

    // As many ready targets as there are job slots are started.
    method Launch()
      requires Valid() && |Busy(log)| < stage.jobs && Ended(log, false) == {}
      modifies `state, `log
      ensures Valid() && Ended(log, true) == old(Ended(log, true)) && Ended(log, false) == {}
      ensures Busy(log) == {} ==> Stuck(stage, log)
    {
      hide Known, Busy, Ended, Ready;
      var order := Keys();
      var i := 0;
      while i < |order|
        invariant 0 <= i <= |order| && Valid() && |Busy(log)| < stage.jobs
        invariant Ended(log, true) == old(Ended(log, true)) && Ended(log, false) == {}
        invariant Busy(log) == {} ==> forall j :: 0 <= j < i ==> Waits(stage, log, order[j])
      {
        var t := order[i];
        assert t in Set(order);
        var n := RunningCount();
        if n > stage.jobs { break; }
        StateFacts(stage, log, targets, deplist, dependencies, state);
        if state[t] == Pending {
          var ready := IsReady(t);
          if ready {
            AfterStart(log, t, false);
            NowBusy(stage, log, t, false);
            StartTarget(t, false);
            n := RunningCount();
            if n >= stage.jobs { return; }
          }
        }
        i := i + 1;
      }
      if Busy(log) == {} { AllWait(stage, log, targets, deplist, dependencies, state, order); }
    }

    method AllDone() returns (done: bool)
      requires Valid()
      ensures done <==> deplist == {}
    {
      hide Known;
      StateFacts(stage, log, targets, deplist, dependencies, state);
      var order := Keys();
      if order == [] { return true; }
      assert order[0] in Set(order);
      return state[order[0]] == Done;
    }

    // Nothing runs, and nothing can: the first target that is left is started all the same.
    method Force()
      requires Valid() && Stuck(stage, log) && Ended(log, false) == {} && deplist != {}
      modifies `state, `log
      ensures Valid() && Busy(log) != {}
      ensures Ended(log, true) == old(Ended(log, true)) && Ended(log, false) == {}
    {
      hide Known, Ended, Stuck;
      assert Busy(log) == {} by { StuckIdle(stage, log); }
      StateFacts(stage, log, targets, deplist, dependencies, state);
      var first: Option<Target> := None;
      var i := 0;
      while i < |targets|
        invariant 0 <= i <= |targets| && first == if i > 0 then Some(targets[0]) else None
      {
        assert targets[i] in Set(targets);
        if state[targets[i]] == Pending && first.None? { first := Some(targets[i]); }
        i := i + 1;
      }
      assert targets[0] in Set(targets);
      assert first.value !in Started(log) && first.value in Set(stage.targets) && |Busy(log)| < stage.jobs;
      AfterStart(log, first.value, true);
      NowBusy(stage, log, first.value, true);
      StartTarget(first.value, true);
    }

    // `wait -n`: some running jobs have ended, with some result.
    method Wait() returns (ended: map<Target, bool>)
      requires Valid() && Busy(log) != {}
      ensures ended.Keys != {} && ended.Keys <= Busy(log)
    {
      hide Known;
      StateFacts(stage, log, targets, deplist, dependencies, state);
      var order := Keys();
      ended := map[];
      while ended == map[]
        invariant ended.Keys <= Busy(log)
        decreases ended == map[]
      {
        var first :| first in deplist && state[first] == Running;
        var ok := *;
        ended := ended[first := ok];
        assert first in ended.Keys;
      }
      for i := 0 to |order|
        invariant ended.Keys != {} && ended.Keys <= Busy(log)
      {
        assert order[i] in Set(order);
        var too, ok := *, *;
        if too && state[order[i]] == Running { ended := ended[order[i] := ok]; }
      }
    }

    // The results of the jobs that have ended are taken in.
    method Reap(ended: map<Target, bool>)
      requires Valid() && ended.Keys <= Busy(log)
      modifies this
      ensures Valid()
      ensures Ended(log, true) == old(Ended(log, true)) + Results(ended, true, ended.Keys)
      ensures Ended(log, false) == old(Ended(log, false)) + Results(ended, false, ended.Keys)
      ensures Busy(log) == old(Busy(log)) - ended.Keys
    {
      hide Known, Ended, Started, Busy, NoRepeats, Set, Results;
      ghost var log0 := log;
      StateFacts(stage, log, targets, deplist, dependencies, state);
      var order := Keys();
      SetEnds(order);
      NoResults(ended);
      var i := 0;
      while i < |order|
        invariant 0 <= i <= |order| && Valid() && Started(log) == Started(log0)
        invariant forall ok :: Ended(log, ok) == Ended(log0, ok) + Results(ended, ok, Set(order[..i]))
      {
        SetNext(order, i);
        NextResults(ended, Set(order[..i]), order[i]);
        if order[i] in ended { ReapOne(order[i], ended, log0, Set(order[..i])); }
        i := i + 1;
      }
      AllResults(log0, log, ended, Set(order));
    }

    // One job that has ended
    method ReapOne(t: Target, ended: map<Target, bool>, ghost log0: seq<Event>, ghost among: set<Target>)
      requires Valid() && ended.Keys <= Busy(log0) && t in ended && t !in among && Started(log) == Started(log0)
      requires forall ok :: Ended(log, ok) == Ended(log0, ok) + Results(ended, ok, among)
      modifies this
      ensures Valid() && Started(log) == Started(log0)
      ensures Ended(log, ended[t]) == old(Ended(log, ended[t])) + {t} &&
        Ended(log, !ended[t]) == old(Ended(log, !ended[t]))
    {
      hide Known, Ended, Started, Busy, Results;
      StillBusy(log0, log, ended, among, t);
      AfterEnd(log, t, ended[t]);
      EndTarget(t, ended[t]);
    }

    // The first half of a round: jobs are started, or everything is done.
    method StartJobs() returns (done: bool)
      requires Valid() && |Busy(log)| < stage.jobs && Ended(log, false) == {}
      modifies `state, `log
      ensures Valid() && Ended(log, false) == {} && (done <==> deplist == {}) && (!done ==> Busy(log) != {})
    {
      hide Known, Ended, Started, Stuck, Busy, Set;
      Launch();
      done := AllDone();
      if done { return; }
      var n := RunningCount();
      if n == 0 { Force(); }
    }

    // The second half: jobs end.
    method EndJobs()
      requires Valid() && Busy(log) != {} && Ended(log, false) == {}
      modifies this
      ensures Valid() && |Busy(log)| < stage.jobs
      ensures |deplist| < |old(deplist)| || (deplist == old(deplist) && Ended(log, false) != {})
    {
      hide Known, Ended, Started, Busy, Set, Results;
      StateFacts(stage, log, targets, deplist, dependencies, state);
      ghost var busy, done0 := Busy(log), Ended(log, true);
      var ended := Wait();
      Reap(ended);
      StateFacts(stage, log, targets, deplist, dependencies, state);
      FewerBusy(busy, ended.Keys);
      Progress(Set(stage.targets), done0, Ended(log, true), Ended(log, false), ended);
    }

    // `pkgloop_parallel`: it ends with everything done, or after a failure.
    method PkgLoopParallel() returns (ok: bool)
      requires Valid() && log == []
      modifies this
      ensures Valid() && LegalRun(stage, log)
      ensures ok ==> Ended(log, true) == Set(stage.targets)
      ensures !ok ==> Ended(log, false) != {}
    {
      hide Known, Ended, Started, Busy, Set, LegalRun;
      StateFacts(stage, log, targets, deplist, dependencies, state);
      Idle();
      while true
        invariant Valid() && |Busy(log)| < stage.jobs
        decreases |deplist|, if Ended(log, false) == {} then 1 else 0
      {
        var failed := AnyFailed();
        if failed {
          StateFacts(stage, log, targets, deplist, dependencies, state);
          return false;
        }
        var done := StartJobs();
        if done {
          StateFacts(stage, log, targets, deplist, dependencies, state);
          return true;
        }
        EndJobs();
      }
    }
  }
}
