/** Ordered shutdown: registered hooks run in groups of equal priority, lowest first, the hooks
    of one group concurrently, until all are done or the deadline has passed. */
module Shutdown {

  /** The function of a hook is opaque; it is identified by fn. */
  datatype Hook = Hook(name: string, priority: int, fn: int)

  // ------------------------------------------------------------ sorting, grouping

  ghost predicate SortedByPriority(hooks: seq<Hook>) {
    forall i, j :: 0 <= i < j < |hooks| ==> hooks[i].priority <= hooks[j].priority
  }

  ghost function Flat(groups: seq<seq<Hook>>): seq<Hook> {
    if groups == [] then [] else Flat(groups[..|groups| - 1]) + groups[|groups| - 1]
  }

  ghost predicate HasPriority(group: seq<Hook>, priority: int) {
    group != [] && forall i :: 0 <= i < |group| ==> group[i].priority == priority
  }

  /** Non-empty groups of one priority each, different from that of the group before. */
  ghost predicate AreRuns(groups: seq<seq<Hook>>) {
    groups != [] ==>
      var n := |groups| - 1;
      && groups[n] != []
      && HasPriority(groups[n], groups[n][0].priority)
      && AreRuns(groups[..n])
      && (n > 0 ==> groups[n - 1] != [] && groups[n - 1][0].priority != groups[n][0].priority)
  }

  /** The hooks, sorted or not, cut into maximal runs of one priority. */
  method GroupByPriority(hooks: seq<Hook>) returns (groups: seq<seq<Hook>>)
    ensures Flat(groups) == hooks
    ensures AreRuns(groups)
  {
    if |hooks| == 0 {
      return [];
    }
    groups := [];
    var current := [hooks[0]];
    for i := 1 to |hooks|
      invariant Flat(groups) + current == hooks[..i]
      invariant HasPriority(current, hooks[i - 1].priority)
      invariant AreRuns(groups)
      invariant groups != [] ==> groups[|groups| - 1] != [] && groups[|groups| - 1][0].priority != hooks[i - 1].priority
    {
      if hooks[i].priority != hooks[i - 1].priority {
        assert (groups + [current])[..|groups|] == groups;
        groups := groups + [current];
        current := [hooks[i]];
      } else {
        current := current + [hooks[i]];
      }
    }
    assert (groups + [current])[..|groups|] == groups;
    groups := groups + [current];
    assert hooks[..|hooks|] == hooks;
  }

  /** Every group has one priority, and the priorities rise from group to group. */
  ghost predicate Ascending(groups: seq<seq<Hook>>) {
    && (forall g :: 0 <= g < |groups| ==> groups[g] != [] && HasPriority(groups[g], groups[g][0].priority))
    && (forall g, h :: 0 <= g < h < |groups| ==> groups[g][0].priority < groups[h][0].priority)
  }

  lemma {:induction false} SortedRunsAscend(groups: seq<seq<Hook>>)
    requires AreRuns(groups) && SortedByPriority(Flat(groups))
    ensures Ascending(groups)
  {
    if groups == [] {
    } else {
      var n := |groups| - 1;
      SortedPrefix(Flat(groups[..n]), groups[n]);
      SortedRunsAscend(groups[..n]);
      if n > 0 {
        LastRunIsHigher(groups);
      }
    }
  }

  /** In a sorted list a new run has a higher priority than the run before. */
  lemma LastRunIsHigher(groups: seq<seq<Hook>>)
    requires |groups| > 1 && AreRuns(groups) && SortedByPriority(Flat(groups))
    ensures
      var n := |groups| - 1;
      groups[n - 1] != [] && groups[n] != [] && groups[n - 1][0].priority < groups[n][0].priority
  {
    var n := |groups| - 1;
    var front, before, last := groups[..n], groups[n - 1], groups[n];
    assert Flat(front) == Flat(front[..n - 1]) + before;
    assert AreRuns(front) && HasPriority(before, before[0].priority);
    var k := |Flat(front)|;
    assert Flat(groups)[k - 1] == before[|before| - 1] && Flat(groups)[k] == last[0];
  }

  lemma SortedPrefix(a: seq<Hook>, b: seq<Hook>)
    requires SortedByPriority(a + b)
    ensures SortedByPriority(a)
  {
    forall i, j | 0 <= i < j < |a| ensures a[i].priority <= a[j].priority {
      assert (a + b)[i] == a[i] && (a + b)[j] == a[j];
    }
  }

  /** A plan for these hooks: all of them, in ascending groups. */
  ghost predicate IsPlan(groups: seq<seq<Hook>>, hooks: seq<Hook>) {
    multiset(Flat(groups)) == multiset(hooks) && Ascending(groups)
  }

  class ShutdownManager {
    var hooks: seq<Hook>
    var terminating: bool

    constructor ()
      ensures hooks == [] && !terminating
    {
      hooks, terminating := [], false;
    }

    method RegisterFunc(name: string, priority: int, fn: int)
      modifies this`hooks
      ensures hooks == old(hooks) + [Hook(name, priority, fn)]
    {
      hooks := hooks + [Hook(name, priority, fn)];
    }

    /** What WaitForSignal does between the signal and the first hook; sorted is what the library
        sort, which is not stable, makes of the copied hooks. */
    method Prepare(sorted: seq<Hook>) returns (groups: seq<seq<Hook>>)
      requires SortedByPriority(sorted) && multiset(sorted) == multiset(hooks)
      modifies this`terminating
      ensures terminating
      ensures IsPlan(groups, hooks)
    {
      terminating := true;
      groups := GroupByPriority(sorted);
      SortedRunsAscend(groups);
    }
  }

  // ------------------------------------------------------------ running the groups

  /** A hook of the plan: its group and its place there. */
  datatype Id = Id(group: nat, index: nat)

  datatype Phase = Checking | Running | Done

  /** group is the loop's position, spawned the goroutines it has created there and waiting the
      wait group's counter; pending goroutines exist but have not called their hook. */
  datatype State = State(phase: Phase, group: nat, spawned: nat, waiting: int,
                         pending: set<Id>, active: set<Id>, finished: set<Id>, expired: bool)

  datatype Step =
    | Expire            // the deadline passes
    | CheckDeadline     // the loop head
    | Spawn             // Add(1) and go
    | Begin(hook: Id)   // a goroutine calls its hook
    | Finish(hook: Id)  // the hook returns, Done()
    | WaitReturns       // the counter is zero

  ghost predicate Enabled(groups: seq<seq<Hook>>, s: State, step: Step) {
    match step
    case Expire => true
    case CheckDeadline => s.phase == Checking
    case Spawn => s.phase == Running && s.group < |groups| && s.spawned < |groups[s.group]|
    case Begin(h) => h in s.pending
    case Finish(h) => h in s.active
    case WaitReturns => s.phase == Running && s.group < |groups| && s.spawned == |groups[s.group]| && s.waiting == 0
  }

  ghost function Apply(groups: seq<seq<Hook>>, s: State, step: Step): State {
    match step
    case Expire => s.(expired := true)
    case CheckDeadline =>
      if s.group >= |groups| || s.expired then s.(phase := Done) else s.(phase := Running, spawned := 0, waiting := 0)
    case Spawn =>
      s.(spawned := s.spawned + 1, waiting := s.waiting + 1, pending := s.pending + {Id(s.group, s.spawned)})
    case Begin(h) => s.(pending := s.pending - {h}, active := s.active + {h})
    case Finish(h) => s.(active := s.active - {h}, finished := s.finished + {h}, waiting := s.waiting - 1)
    case WaitReturns => s.(phase := Checking, group := s.group + 1)
  }

  ghost predicate Possible(groups: seq<seq<Hook>>, steps: seq<Step>)
    decreases |steps|, 0
  {
    steps == [] ||
    var front := steps[..|steps| - 1];
    Possible(groups, front) && Enabled(groups, After(groups, front), steps[|steps| - 1])
  }

  ghost function After(groups: seq<seq<Hook>>, steps: seq<Step>): State
    requires Possible(groups, steps)
    decreases |steps|, 1
  {
    if steps == [] then State(Checking, 0, 0, 0, {}, {}, {}, false)
    else Apply(groups, After(groups, steps[..|steps| - 1]), steps[|steps| - 1])
  }

  predicate InPlan(groups: seq<seq<Hook>>, h: Id) {
    h.group < |groups| && h.index < |groups[h.group]|
  }

  /** The loop has put this hook into the hands of a goroutine. */
  predicate Spawned(s: State, h: Id) {
    s.phase == Running && h.group == s.group && h.index < s.spawned
  }

  /** Hooks of the groups below the loop's position are finished; in the current group exactly the
      spawned ones are pending, active or finished; later ones are untouched. */
  ghost predicate HookIsSound(groups: seq<seq<Hook>>, s: State, h: Id) {
    && (InPlan(groups, h) && h.group < s.group ==> h in s.finished)
    && (Spawned(s, h) ==> h in s.pending || h in s.active || h in s.finished)
    && (h in s.finished ==> InPlan(groups, h) && (h.group < s.group || Spawned(s, h)))
    && (h in s.pending ==> Spawned(s, h) && h !in s.active && h !in s.finished)
    && (h in s.active ==> Spawned(s, h) && h !in s.finished)
  }

  ghost predicate Sound(groups: seq<seq<Hook>>, s: State) {
    && s.group <= |groups|
    && (s.phase == Running ==> s.group < |groups| && s.spawned <= |groups[s.group]|)
    && (s.phase == Done ==> s.group == |groups| || s.expired)
    && (s.phase == Running ==> s.waiting == |s.pending| + |s.active|)
    && (forall h :: HookIsSound(groups, s, h))
  }

  lemma StepKeepsHooks(groups: seq<seq<Hook>>, s: State, step: Step, h: Id)
    requires Sound(groups, s) && Enabled(groups, s, step)
    ensures HookIsSound(groups, Apply(groups, s, step), h)
  {
    assert HookIsSound(groups, s, h);
    match step
    case Spawn => assert HookIsSound(groups, s, Id(s.group, s.spawned));
    case Begin(b) => assert HookIsSound(groups, s, b);
    case Finish(b) => assert HookIsSound(groups, s, b);
    case _ =>
  }

  /** The wait group counts the goroutines that have not returned. */
  lemma StepKeepsCount(groups: seq<seq<Hook>>, s: State, step: Step)
    requires Sound(groups, s) && Enabled(groups, s, step)
    ensures var s' := Apply(groups, s, step); s'.phase == Running ==> s'.waiting == |s'.pending| + |s'.active|
  {
    match step
    case CheckDeadline => Idle(groups, s);
    case Spawn => assert HookIsSound(groups, s, Id(s.group, s.spawned));
    case Begin(b) => assert HookIsSound(groups, s, b);
    case _ =>
  }

  lemma Idle(groups: seq<seq<Hook>>, s: State)
    requires Sound(groups, s) && s.phase != Running
    ensures s.pending == {} && s.active == {}
  {
    forall h ensures h !in s.pending && h !in s.active {
      assert HookIsSound(groups, s, h);
    }
  }

  lemma {:induction false} EveryRunIsSound(groups: seq<seq<Hook>>, steps: seq<Step>)
    requires Possible(groups, steps)
    ensures Sound(groups, After(groups, steps))
  {
    if steps == [] {
    } else {
      var front, step := steps[..|steps| - 1], steps[|steps| - 1];
      EveryRunIsSound(groups, front);
      var s := After(groups, front);
      StepKeepsCount(groups, s, step);
      forall h ensures HookIsSound(groups, Apply(groups, s, step), h) {
        StepKeepsHooks(groups, s, step, h);
      }
      if step.Begin? || step.Finish? {
        assert HookIsSound(groups, s, step.hook);
      }
    }
  }

  /** A hook is finished exactly when its return is in the run, and its call came before. */
  lemma {:induction false} StateIsHistory(groups: seq<seq<Hook>>, steps: seq<Step>, h: Id)
    requires Possible(groups, steps)
    ensures var s := After(groups, steps);
      && (h in s.finished <==> Finish(h) in steps)
      && (h in s.active || h in s.finished <==> Begin(h) in steps)
      && (s.expired <==> Expire in steps)
  {
    if steps == [] {
    } else {
      var front, step := steps[..|steps| - 1], steps[|steps| - 1];
      StateIsHistory(groups, front, h);
      assert steps == front + [step];
    }
  }

  lemma {:induction false} PrefixIsPossible(groups: seq<seq<Hook>>, steps: seq<Step>, n: nat)
    requires Possible(groups, steps) && n <= |steps|
    ensures Possible(groups, steps[..n])
    ensures n < |steps| ==> Enabled(groups, After(groups, steps[..n]), steps[n])
  {
    var last := |steps| - 1;
    if n < last {
      PrefixIsPossible(groups, steps[..last], n);
      assert steps[..last][..n] == steps[..n];
    } else {
      assert n == |steps| ==> steps[..n] == steps;
    }
  }

  function HookAt(groups: seq<seq<Hook>>, h: Id): Hook
    requires InPlan(groups, h)
  {
    groups[h.group][h.index]
  }

  lemma LowerPriorityIsLowerGroup(groups: seq<seq<Hook>>, low: Id, high: Id)
    requires Ascending(groups) && InPlan(groups, low) && InPlan(groups, high)
    ensures HookAt(groups, low).priority < HookAt(groups, high).priority <==> low.group < high.group
  {
  }

  /** In every interleaving, when a hook is called every hook of lower priority has returned, the
      hook is one of the plan, and it has not been called before. */
  lemma PriorityOrder(groups: seq<seq<Hook>>, steps: seq<Step>, i: nat, h: Id)
    requires Ascending(groups) && Possible(groups, steps) && i < |steps| && steps[i] == Begin(h)
    ensures InPlan(groups, h)
    ensures Begin(h) !in steps[..i]
    ensures forall low :: InPlan(groups, low) && HookAt(groups, low).priority < HookAt(groups, h).priority ==>
      Finish(low) in steps[..i]
  {
    PrefixIsPossible(groups, steps, i);
    var s := After(groups, steps[..i]);
    EveryRunIsSound(groups, steps[..i]);
    assert HookIsSound(groups, s, h);
    StateIsHistory(groups, steps[..i], h);
    forall low | InPlan(groups, low) && HookAt(groups, low).priority < HookAt(groups, h).priority
      ensures Finish(low) in steps[..i]
    {
      LowerPriorityIsLowerGroup(groups, low, h);
      assert HookIsSound(groups, s, low);
      StateIsHistory(groups, steps[..i], low);
    }
  }

  /** When the sequence is over, the hooks called are those of the first groups, all of which have
      returned; and they are all the hooks unless the deadline has passed. */
  lemma WholeGroupsRan(groups: seq<seq<Hook>>, steps: seq<Step>)
    requires Possible(groups, steps) && After(groups, steps).phase == Done
    ensures forall h :: Begin(h) in steps <==> InPlan(groups, h) && h.group < After(groups, steps).group
    ensures forall h :: Begin(h) in steps <==> Finish(h) in steps
    ensures Expire !in steps ==> After(groups, steps).group == |groups|
  {
    var s := After(groups, steps);
    EveryRunIsSound(groups, steps);
    StateIsHistory(groups, steps, Id(0, 0));
    forall h
      ensures Begin(h) in steps <==> InPlan(groups, h) && h.group < s.group
      ensures Begin(h) in steps <==> Finish(h) in steps
    {
      assert HookIsSound(groups, s, h);
      StateIsHistory(groups, steps, h);
    }
  }

  lemma {:induction false} FlatHolds(groups: seq<seq<Hook>>, hook: Hook)
    requires hook in Flat(groups)
    ensures exists h :: InPlan(groups, h) && HookAt(groups, h) == hook
  {
    var n := |groups| - 1;
    if hook in groups[n] {
      var i :| 0 <= i < |groups[n]| && groups[n][i] == hook;
      assert InPlan(groups, Id(n, i)) && HookAt(groups, Id(n, i)) == hook;
    } else {
      FlatHolds(groups[..n], hook);
      var h :| InPlan(groups[..n], h) && HookAt(groups[..n], h) == hook;
      assert InPlan(groups, h) && HookAt(groups, h) == hook;
    }
  }

  /** So within the deadline every registered hook has been called and has returned. */
  lemma EveryRegisteredHookRan(groups: seq<seq<Hook>>, hooks: seq<Hook>, steps: seq<Step>, hook: Hook)
    requires IsPlan(groups, hooks) && hook in hooks
    requires Possible(groups, steps) && After(groups, steps).phase == Done && Expire !in steps
    ensures exists h :: InPlan(groups, h) && HookAt(groups, h) == hook && Finish(h) in steps
  {
    assert hook in multiset(hooks);
    assert hook in Flat(groups);
    FlatHolds(groups, hook);
    var h :| InPlan(groups, h) && HookAt(groups, h) == hook;
    WholeGroupsRan(groups, steps);
    assert Begin(h) in steps;
  }

  lemma {:induction false} ExpiredStaysInGroup(groups: seq<seq<Hook>>, steps: seq<Step>, i: nat)
    requires Possible(groups, steps) && i < |steps| && steps[i] == Expire
    ensures Possible(groups, steps[..i])
    ensures
      var before, s := After(groups, steps[..i]), After(groups, steps);
      s.expired && (s.phase == Running ==> before.phase == Running && s.group == before.group)
    decreases |steps|
  {
    var front := steps[..|steps| - 1];
    if i == |steps| - 1 {
    } else {
      ExpiredStaysInGroup(groups, front, i);
      assert front[..i] == steps[..i];
    }
  }

  /** Once the deadline has passed no new group is begun: a hook called later belongs to the group that
      was running at that moment. */
  lemma DeadlineStopsGroups(groups: seq<seq<Hook>>, steps: seq<Step>, i: nat, m: nat, h: Id)
    requires Possible(groups, steps) && i < m < |steps| && steps[i] == Expire && steps[m] == Begin(h)
    ensures Possible(groups, steps[..i])
    ensures After(groups, steps[..i]).phase == Running && h.group == After(groups, steps[..i]).group
  {
    PrefixIsPossible(groups, steps, m);
    EveryRunIsSound(groups, steps[..m]);
    assert HookIsSound(groups, After(groups, steps[..m]), h);
    ExpiredStaysInGroup(groups, steps[..m], i);
    assert steps[..m][..i] == steps[..i];
  }

  // ------------------------------------------------------------------- progress

  /** Until the sequence is over something other than the clock can move. */
  lemma NeverStuck(groups: seq<seq<Hook>>, steps: seq<Step>)
    requires Possible(groups, steps) && After(groups, steps).phase != Done
    ensures exists step :: step != Expire && Enabled(groups, After(groups, steps), step)
  {
    var s := After(groups, steps);
    EveryRunIsSound(groups, steps);
    if s.phase == Checking {
      assert Enabled(groups, s, CheckDeadline);
    } else if s.pending != {} {
      var h :| h in s.pending;
      assert Enabled(groups, s, Begin(h));
    } else if s.active != {} {
      var h :| h in s.active;
      assert Enabled(groups, s, Finish(h));
    } else if s.spawned < |groups[s.group]| {
      assert Enabled(groups, s, Spawn);
    } else {
      assert Enabled(groups, s, WaitReturns);
    }
  }

  /** Steps left for the groups from g on: three for a hook, two for a group. */
  ghost function Work(groups: seq<seq<Hook>>, g: nat): nat
    decreases |groups| - g
  {
    if g >= |groups| then 0 else 3 * |groups[g]| + 2 + Work(groups, g + 1)
  }

  ghost function Left(groups: seq<seq<Hook>>, s: State): int {
    match s.phase
    case Done => 0
    case Checking => Work(groups, s.group) + 1
    case Running =>
      if s.group >= |groups| then 0
      else Work(groups, s.group + 1) + 2 + 3 * (|groups[s.group]| - s.spawned) + 2 * |s.pending| + |s.active|
  }

  lemma StepDoesWork(groups: seq<seq<Hook>>, s: State, step: Step)
    requires Sound(groups, s) && Enabled(groups, s, step) && step != Expire
    ensures 0 <= Left(groups, Apply(groups, s, step)) < Left(groups, s)
  {
    match step
    case CheckDeadline => CheckDoesWork(groups, s);
    case Spawn => SpawnDoesWork(groups, s);
    case Begin(h) => BeginDoesWork(groups, s, h);
    case Finish(h) => FinishDoesWork(groups, s, h);
    case WaitReturns =>
  }

  lemma CheckDoesWork(groups: seq<seq<Hook>>, s: State)
    requires Sound(groups, s) && Enabled(groups, s, CheckDeadline)
    ensures 0 <= Left(groups, Apply(groups, s, CheckDeadline)) < Left(groups, s)
  {
    Idle(groups, s);
  }

  lemma SpawnDoesWork(groups: seq<seq<Hook>>, s: State)
    requires Sound(groups, s) && Enabled(groups, s, Spawn)
    ensures 0 <= Left(groups, Apply(groups, s, Spawn)) < Left(groups, s)
  {
  }

  lemma BeginDoesWork(groups: seq<seq<Hook>>, s: State, h: Id)
    requires Sound(groups, s) && h in s.pending
    ensures 0 <= Left(groups, Apply(groups, s, Begin(h))) < Left(groups, s)
  {
    assert HookIsSound(groups, s, h);
    assert |s.pending - {h}| == |s.pending| - 1 && |s.active + {h}| == |s.active| + 1;
  }

  lemma FinishDoesWork(groups: seq<seq<Hook>>, s: State, h: Id)
    requires Sound(groups, s) && h in s.active
    ensures 0 <= Left(groups, Apply(groups, s, Finish(h))) < Left(groups, s)
  {
    assert HookIsSound(groups, s, h);
    assert |s.active - {h}| == |s.active| - 1;
  }

  ghost function Moves(steps: seq<Step>): nat {
    if steps == [] then 0
    else Moves(steps[..|steps| - 1]) + if steps[|steps| - 1] == Expire then 0 else 1
  }

  /** If every called hook returns the sequence ends: no run has more than three steps for a hook,
      two for a group and the last one. */
  lemma {:induction false} RunsAreFinite(groups: seq<seq<Hook>>, steps: seq<Step>)
    requires Possible(groups, steps)
    ensures var left := Left(groups, After(groups, steps)); 0 <= left && Moves(steps) + left <= Work(groups, 0) + 1
  {
    if steps == [] {
    } else {
      var front, step := steps[..|steps| - 1], steps[|steps| - 1];
      RunsAreFinite(groups, front);
      EveryRunIsSound(groups, front);
      if step != Expire {
        StepDoesWork(groups, After(groups, front), step);
      }
    }
  }
}
