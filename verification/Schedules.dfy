/**
  The schedule: one tick per step, a window per system run. A stamp is newer than a system's last
  run exactly when the system ran in no step at or after the stamp's tick.
 */
module Schedules {
  import opened Prelude
  import opened Cells
  import opened Ticks
  import opened Bundles
  import opened Registries
  import opened Worlds
  import opened Commands

  class System {
    const typeId: nat
    const queries: seq<(nat, Option<Declared>)>  // its query parameters: the type, and what the type declares
    var lastRun: Tick                            // the tick of the previous run, 0 before the first

    constructor (id: nat, qs: seq<(nat, Option<Declared>)>)
      ensures typeId == id && queries == qs && lastRun == 0
    {
      typeId, queries, lastRun := id, qs, 0;
    }
  }

  datatype Step = Single(system: System) | Parallel(group: seq<System>) {
    function Systems(): seq<System> {
      match this
      case Single(s) => [s]
      case Parallel(g) => g
    }

    ghost function Members(): set<System> {
      set s | s in Systems()
    }
  }

  /** A step that was run: who ran in it, and at what time. */
  datatype Entry = Entry(systems: set<System>, time: nat)

  /** What a system got for one run: its window, and whether its commands wait for the next sync point. */
  datatype Handed = Handed(system: System, window: Window, deferring: bool)

  /** The time of the last run of a system, 0 when it never ran. */
  ghost function LastTime(log: seq<Entry>, s: System): nat {
    if log == [] then 0
    else if s in log[|log| - 1].systems then log[|log| - 1].time
    else LastTime(log[..|log| - 1], s)
  }

  ghost predicate Chronological(log: seq<Entry>) {
    && (forall i :: 0 <= i < |log| ==> log[i].time > 0)
    && forall i, j :: 0 <= i < j < |log| ==> log[i].time < log[j].time
  }

  ghost predicate TimesUpTo(log: seq<Entry>, time: nat) {
    forall i :: 0 <= i < |log| ==> log[i].time <= time
  }

  // ---------------------------------------------------------------------------------------------
  // Exactly once
  // ---------------------------------------------------------------------------------------------

  /** The system last ran before a time exactly when it ran in none of the entries from that time on. */
  lemma {:induction false} LastTimeBefore(log: seq<Entry>, s: System, time: nat)
    requires Chronological(log) && time > 0
    ensures LastTime(log, s) < time <==> forall j :: 0 <= j < |log| && time <= log[j].time ==> s !in log[j].systems
    ensures |log| > 0 ==> LastTime(log, s) <= log[|log| - 1].time
  {
    if log != [] {
      var last := |log| - 1;
      LastTimeBefore(log[..last], s, time);
      assert last > 0 ==> log[..last][last - 1] == log[last - 1];
      assert forall j :: 0 <= j < last ==> log[..last][j] == log[j];
    }
  }

  /** The window of a system that runs in step `k`: from its previous run to the time of the step. */
  ghost function WindowIn(log: seq<Entry>, s: System, k: nat): Window
    requires k < |log|
  {
    Window(TickOf(LastTime(log[..k], s)), TickOf(log[k].time))
  }

  /**
    A stamp made at `time` is newer, for the run of a system in step `k`, exactly when the system
    ran in none of the steps before `k` that started at `time` or later.
   */
  lemma NewerIffNotRunSince(log: seq<Entry>, s: System, time: nat, k: nat)
    requires Chronological(log) && k < |log| && 0 < time <= log[k].time
    requires log[k].time - time < TICK_RANGE && log[k].time - LastTime(log[..k], s) < TICK_RANGE
    ensures IsNewerThan(TickOf(time), WindowIn(log, s, k))
       <==> forall j :: 0 <= j < k && time <= log[j].time ==> s !in log[j].systems
  {
    LastTimeBefore(log[..k], s, time);
    assert k > 0 ==> log[..k][k - 1] == log[k - 1];
    assert forall j :: 0 <= j < k ==> log[..k][j] == log[j];
    NewerIffLater(time, LastTime(log[..k], s), log[k].time);
  }

  /**
    A stamp made in step `w` is newer, for the run of a system in step `k`, exactly when the system
    ran neither in step `w` nor in a step between. So its first later run finds a stamp newer, and no
    run after that, unless the system ran in step `w` itself: then its own stamps, and those of the
    other members of its group, are never newer.
   */
  lemma ReportedExactlyOnce(log: seq<Entry>, s: System, w: nat, k: nat)
    requires Chronological(log) && w < k < |log| && s in log[k].systems
    requires log[k].time - log[w].time < TICK_RANGE && log[k].time - LastTime(log[..k], s) < TICK_RANGE
    ensures IsNewerThan(TickOf(log[w].time), WindowIn(log, s, k)) <==> forall j :: w <= j < k ==> s !in log[j].systems
  {
    NewerIffNotRunSince(log, s, log[w].time, k);
    assert forall j :: 0 <= j < k ==> (log[w].time <= log[j].time <==> w <= j);
  }

  /** No stamp is newer twice: a run after one that came later than the stamp does not find it newer again. */
  lemma OneRunReports(log: seq<Entry>, s: System, w: nat, k: nat, m: nat)
    requires Chronological(log) && w < k < m < |log| && s in log[k].systems && s in log[m].systems
    requires log[m].time - log[w].time < TICK_RANGE && log[m].time - LastTime(log[..m], s) < TICK_RANGE
    ensures !IsNewerThan(TickOf(log[w].time), WindowIn(log, s, m))
  {
    ReportedExactlyOnce(log, s, w, m);
  }

  function Indices(n: nat): (s: set<nat>)
    ensures forall i: nat :: i in s <==> i < n
  {
    if n == 0 then {} else Indices(n - 1) + {n - 1}
  }

  /**
    Each system of the step got the window from its previous run to the time of this one; its commands
    waited exactly if it ran beside others.
   */
  ghost predicate Served(step: Step, executor: bool, log: seq<Entry>, time: nat, handed: seq<Handed>) {
    && |handed| == |step.Systems()|
    && forall i :: 0 <= i < |handed| ==>
         handed[i] == Handed(step.Systems()[i], Window(TickOf(LastTime(log, step.Systems()[i])), TickOf(time)), executor && |step.Systems()| > 1)
  }

  /** Entry `n + k` of the log is step `k`, run at its own tick and with the right windows. */
  ghost predicate StepRan(list: seq<Step>, executor: bool, log: seq<Entry>, n: nat, start: nat, handed: seq<seq<Handed>>, k: nat) {
    && k < |list| && k < |handed| && n + k < |log|
    && log[n + k] == Entry(list[k].Members(), start + k + 1)
    && Served(list[k], executor, log[..n + k], start + k + 1, handed[k])
  }

  /** The windows handed out are those of the log. */
  lemma HandedWindow(list: seq<Step>, executor: bool, log: seq<Entry>, n: nat, start: nat, handed: seq<seq<Handed>>, k: nat, i: nat)
    requires StepRan(list, executor, log, n, start, handed, k) && i < |list[k].Systems()|
    ensures i < |handed[k]| && handed[k][i].system == list[k].Systems()[i]
    ensures handed[k][i].window == WindowIn(log, list[k].Systems()[i], n + k) && handed[k][i].deferring == (executor && |list[k].Systems()| > 1)
  {
  }

  lemma StepRanNow(list: seq<Step>, executor: bool, log: seq<Entry>, n: nat, start: nat, handed: seq<seq<Handed>>, h: seq<Handed>, k: nat)
    requires k < |list| && |handed| == k && |log| == n + k && Served(list[k], executor, log, start + k + 1, h)
    ensures StepRan(list, executor, log + [Entry(list[k].Members(), start + k + 1)], n, start, handed + [h], k)
  {
    hide Served;
    assert (log + [Entry(list[k].Members(), start + k + 1)])[..n + k] == log;
  }

  /** What was run stays run as the log grows. */
  lemma StepRanStill(list: seq<Step>, executor: bool, log: seq<Entry>, more: seq<Entry>, n: nat, start: nat, handed: seq<seq<Handed>>, h: seq<Handed>, k: nat)
    requires StepRan(list, executor, log, n, start, handed, k) && log <= more
    ensures StepRan(list, executor, more, n, start, handed + [h], k)
  {
    assert more[..n + k] == log[..n + k];
  }

  // ---------------------------------------------------------------------------------------------
  // Running a schedule
  // ---------------------------------------------------------------------------------------------

  class Scheduler {
    const cmd: Cmd
    const hasExecutor: bool
    const autoSync: bool
    var steps: map<nat, seq<Step>>
    ghost var log: seq<Entry>
    ghost var systems: set<System>  // everything that was scheduled

    constructor (c: Cmd, executor: bool, sync: bool)
      requires c.world.Ticking() && c.world.now >= 1 && c.Valid() && !c.inParallel
      ensures Valid() && cmd == c && hasExecutor == executor && autoSync == sync && steps == map[] && log == []
    {
      cmd, hasExecutor, autoSync, steps, log, systems := c, executor, sync, map[], [], {};
      new;
      assert fresh(this);
    }

    /** The log is chronological, every system remembers the tick of its last run, and no group is running. */
    ghost predicate Valid()
      reads this, systems, cmd`inParallel, cmd.world`tick, cmd.world`now, cmd.world`lastQueryTick, cmd.world`lastQuery, cmd.world`Repr
    {
      && cmd.world.Ticking() && this !in cmd.world.Repr && Chronological(log) && TimesUpTo(log, cmd.world.now)
      && (forall s :: s in systems ==> s.lastRun == TickOf(LastTime(log, s)) && s !in cmd.world.Repr)
      && StepsOk() && !cmd.inParallel
    }

    /** The systems of a step are scheduled ones, each named once. */
    ghost predicate StepOk(step: Step)
      reads this`systems
    {
      Distinct(step.Systems()) && forall s :: s in step.Systems() ==> s in systems
    }

    /** A system that never ran and is not scheduled yet. */
    ghost predicate IsNew(s: System)
      reads this`systems, this`log, s, cmd.world`Repr
    {
      s !in systems && s.lastRun == 0 && s !in cmd.world.Repr && forall i :: 0 <= i < |log| ==> s !in log[i].systems
    }

    /** Systems that never ran join the schedule with one more step of a session. */
    method AppendStep(session: nat, step: Step)
      requires Valid() && Distinct(step.Systems()) && forall s :: s in step.Systems() ==> IsNew(s)
      modifies this`steps, this`systems
      ensures Valid() && log == old(log) && systems == old(systems) + step.Members()
      ensures steps == old(steps)[session := (if session in old(steps) then old(steps)[session] else []) + [step]]
    {
      hide Chronological;
      forall s | s in step.Systems()
        ensures LastTime(log, s) == 0
      {
        NeverRan(log, s);
      }
      systems := systems + step.Members();
      steps := steps[session := (if session in steps then steps[session] else []) + [step]];
    }

    /** One system as a step of its own. It is refused exactly when its parameters alias each other. */
    method AddSystem(session: nat, s: System, params: seq<S.AccessScope>, specs: S.SystemSpecs) returns (ok: bool)
      requires Valid() && IsNew(s)
      modifies this`steps, this`systems, specs
      ensures Valid() && log == old(log)
      ensures ok <==> s.typeId in old(specs.specs) || S.Coherent(old(S.ViewOf(params)))
      ensures systems == if ok then old(systems) + {s} else old(systems)
      ensures steps == if ok then old(steps)[session := (if session in old(steps) then old(steps)[session] else []) + [Single(s)]] else old(steps)
    {
      hide S.Coherent, S.ViewOf, Chronological, StepOk;
      ok := specs.Register(s.typeId, params);
      if ok {
        AppendStep(session, Single(s));
      }
    }

    /**
      A group that runs in parallel: accepted exactly when no system's parameters alias each other
      and no two systems conflict. A system type declares what it declared when it was first registered.
     */
    method AddSystemParallel(session: nat, group: seq<System>, params: seq<seq<S.AccessScope>>, specs: S.SystemSpecs) returns (ok: bool)
      requires Valid() && |params| == |group| && Distinct(group) && forall s :: s in group ==> IsNew(s)
      modifies this`steps, this`systems, specs
      ensures Valid() && log == old(log)
      ensures ok <==> Accepted(old(specs.View()), TypesOf(group), old(S.ViewsOf(params)))
      ensures systems == if ok then old(systems) + Parallel(group).Members() else old(systems)
      ensures steps == if ok then old(steps)[session := (if session in old(steps) then old(steps)[session] else []) + [Parallel(group)]] else old(steps)
    {
      hide Accepted, Chronological, Step.Members, StepOk;
      ok := CheckGroup(TypesOf(group), params, specs);
      if ok {
        AppendStep(session, Parallel(group));
      }
    }

    /**
      One run of a prepared system whose tick was taken: it gets its window, and its queries answer
      without changing the world.
     */
    method RunSystemAt(s: System, thisRun: Tick) returns (h: Handed)
      requires cmd.Valid() && cmd.world.AllCurrent(s.queries) && s !in cmd.world.Repr
      modifies s`lastRun
      ensures cmd.Valid() && cmd.Seen() == old(cmd.Seen())
      ensures s.lastRun == thisRun && h == Handed(s, Window(old(s.lastRun), thisRun), cmd.inParallel)
    {
      hide World.Valid, World.Housed, World.HeapOk, World.Entities, World.Storages, World.AllCurrent, PendingOk, ReturnedOk, DistinctThreads, CommandsOk;
      var lists := cmd.world.AccessQueries(s.queries);
      h := Handed(s, Window(s.lastRun, thisRun), cmd.inParallel);
      s.lastRun := thisRun;
    }

    /** The systems of a group one after the other, each prepared and run. */
    method RunInOrder(group: seq<System>, thisRun: Tick) returns (ok: bool, handed: seq<Handed>)
      requires cmd.Valid() && Distinct(group) && forall s :: s in group ==> s !in cmd.world.Repr
      modifies group, cmd.world`components, cmd.world`queries, cmd.world`builtAt
      ensures cmd.Valid() && cmd.Seen() == old(cmd.Seen())
      ensures (forall s :: s in group ==> Preparable(s.queries)) ==> ok
      ensures ok ==> |handed| == |group| && forall i :: 0 <= i < |group| ==> handed[i] == Handed(group[i], Window(old(group[i].lastRun), thisRun), cmd.inParallel)
      ensures ok ==> forall i :: 0 <= i < |group| ==> group[i].lastRun == thisRun
    {
      hide *;
      DistinctApart(group);
      handed := [];
      for i := 0 to |group|
        invariant |handed| == i && cmd.Valid() && cmd.Seen() == old(cmd.Seen())
        invariant forall k :: 0 <= k < i ==> handed[k] == Handed(group[k], Window(old(group[k].lastRun), thisRun), cmd.inParallel) && group[k].lastRun == thisRun
        invariant forall k :: i <= k < |group| ==> group[k].lastRun == old(group[k].lastRun)
      {
        ok := cmd.PrepareQueries([group[i].queries]);
        assert [group[i].queries][0] == group[i].queries;
        if !ok {
          return;
        }
        var h := RunSystemAt(group[i], thisRun);
        handed := handed + [h];
      }
      ok := true;
    }

    /** The jobs of a prepared group in whatever order, each once, behind the parallel flag. */
    method RunPrepared(group: seq<System>, thisRun: Tick) returns (handed: seq<Handed>)
      requires cmd.Valid() && Distinct(group) && forall s :: s in group ==> s !in cmd.world.Repr && cmd.world.AllCurrent(s.queries)
      modifies group, cmd`inParallel
      ensures cmd.Valid() && cmd.Seen() == old(cmd.Seen()).(inParallel := false)
      ensures |handed| == |group| && forall i :: 0 <= i < |group| ==> handed[i] == Handed(group[i], Window(old(group[i].lastRun), thisRun), true)
      ensures forall i :: 0 <= i < |group| ==> group[i].lastRun == thisRun
    {
      hide *;
      DistinctApart(group);
      cmd.SetInParallel(true);
      handed := seq(|group|, i requires 0 <= i < |group| => Handed(group[i], Window(0, 0), true));
      var rest := Indices(|group|);
      while rest != {}
        invariant |handed| == |group| && (forall k :: k in rest ==> 0 <= k < |group|)
        invariant cmd.Valid() && cmd.inParallel && cmd.Seen() == old(cmd.Seen()).(inParallel := true)
        invariant forall k :: 0 <= k < |group| && k !in rest ==> handed[k] == Handed(group[k], Window(old(group[k].lastRun), thisRun), true) && group[k].lastRun == thisRun
        invariant forall k :: k in rest ==> group[k].lastRun == old(group[k].lastRun)
        decreases |rest|
      {
        var i :| i in rest;
        var h := RunSystemAt(group[i], thisRun);
        handed := handed[i := h];
        rest := rest - {i};
      }
      cmd.SetInParallel(false);
    }

    /** All systems of a group share one tick. Without an executor, or alone, a system just runs. */
    method RunJobs(group: seq<System>, thisRun: Tick) returns (ok: bool, handed: seq<Handed>)
      requires cmd.Valid() && !cmd.inParallel && Distinct(group) && forall s :: s in group ==> s !in cmd.world.Repr
      modifies group, cmd`inParallel, cmd.world`components, cmd.world`queries, cmd.world`builtAt
      ensures cmd.Valid() && !cmd.inParallel && cmd.Seen() == old(cmd.Seen())
      ensures (forall s :: s in group ==> Preparable(s.queries)) ==> ok
      ensures ok ==> |handed| == |group| && forall i :: 0 <= i < |group| ==> handed[i] == Handed(group[i], Window(old(group[i].lastRun), thisRun), hasExecutor && |group| > 1)
      ensures ok ==> forall i :: 0 <= i < |group| ==> group[i].lastRun == thisRun
    {
      hide *;
      cmd.FlagSeen();
      if !hasExecutor || |group| <= 1 {
        ok, handed := RunInOrder(group, thisRun);
        return;
      }
      handed := [];
      var qss := seq(|group|, i requires 0 <= i < |group| => group[i].queries);
      ok := cmd.PrepareQueries(qss);
      if !ok {
        return;
      }
      assert forall i :: 0 <= i < |group| ==> qss[i] == group[i].queries;
      handed := RunPrepared(group, thisRun);
      cmd.FlagSeen();
    }

    /** One step: the tick moves once, then its systems are prepared and run. */
    method RunStep(step: Step) returns (ok: bool, handed: seq<Handed>)
      requires Valid() && cmd.Valid() && StepOk(step)
      modifies this`log, systems, cmd`inParallel, cmd.world`tick, cmd.world`now, cmd.world`components, cmd.world`queries, cmd.world`builtAt
      ensures cmd.Valid() && cmd.world.now == old(cmd.world.now) + 1 && cmd.world.Ticking()
      ensures cmd.Seen() == old(cmd.Seen()).(tick := cmd.world.tick)
      ensures (forall s :: s in step.Systems() ==> Preparable(s.queries)) ==> ok
      ensures ok ==> Valid() && log == old(log) + [Entry(step.Members(), cmd.world.now)] && Served(step, hasExecutor, old(log), cmd.world.now, handed)
    {
      hide *;
      ghost var before := log;
      Scheduled();
      Members(step);
      cmd.AdvanceTick();
      ok, handed := RunJobs(step.Systems(), cmd.world.tick);
      cmd.FlagSeen();
      if !ok {
        return;
      }
      log := log + [Entry(step.Members(), cmd.world.now)];
      StepLogged(before, step);
      StepServed(before, step, handed);
    }

    /** What a valid scheduler knows before a step. */
    lemma Scheduled()
      requires Valid()
      ensures cmd.world.Ticking() && this !in cmd.world.Repr && Chronological(log) && TimesUpTo(log, cmd.world.now)
      ensures cmd.world.tick == TickOf(cmd.world.now)
      ensures forall s :: s in systems ==> s.lastRun == TickOf(LastTime(log, s)) && s !in cmd.world.Repr
      ensures StepsOk() && !cmd.inParallel
    {
      hide Chronological;
    }

    lemma InOrder()
      requires cmd.world.Ticking() && !cmd.inParallel && this !in cmd.world.Repr && Chronological(log) && TimesUpTo(log, cmd.world.now) && StepsOk()
      requires forall s :: s in systems ==> s.lastRun == TickOf(LastTime(log, s)) && s !in cmd.world.Repr
      ensures Valid()
    {
    }

    /** Every step of every session is made of scheduled systems. */
    ghost predicate StepsOk()
      reads this`steps, this`systems
    {
      forall session, k :: session in steps && 0 <= k < |steps[session]| ==> StepOk(steps[session][k])
    }

    lemma Members(step: Step)
      requires StepOk(step)
      ensures Distinct(step.Systems()) && forall s :: s in step.Systems() ==> s in systems
      ensures forall s :: s in step.Members() <==> s in step.Systems()
    {
    }

    /** With its entry in the log, a step that gave its systems their tick leaves the scheduler in order. */
    lemma StepLogged(before: seq<Entry>, step: Step)
      requires cmd.world.Ticking() && !cmd.inParallel && cmd.world.now > 0 && this !in cmd.world.Repr && StepsOk()
      requires log == before + [Entry(step.Members(), cmd.world.now)] && Chronological(before) && TimesUpTo(before, cmd.world.now - 1)
      requires forall s :: s in systems ==>
        s !in cmd.world.Repr && s.lastRun == if s in step.Systems() then cmd.world.tick else TickOf(LastTime(before, s))
      ensures Valid()
    {
      assert log[..|log| - 1] == before;
    }

    lemma StepServed(before: seq<Entry>, step: Step, handed: seq<Handed>)
      requires |handed| == |step.Systems()| && cmd.world.Ticking()
      requires forall i :: 0 <= i < |handed| ==>
        handed[i] == Handed(step.Systems()[i], Window(TickOf(LastTime(before, step.Systems()[i])), cmd.world.tick), hasExecutor && |step.Systems()| > 1)
      ensures Served(step, hasExecutor, before, cmd.world.now, handed)
    {
    }

    /** Runs the steps of a session in order, each at a tick of its own. */
    method RunSteps(list: seq<Step>) returns (ok: bool, handed: seq<seq<Handed>>)
      requires Valid() && cmd.Valid() && forall k :: 0 <= k < |list| ==> StepOk(list[k])
      modifies this`log, systems, cmd`inParallel, cmd.world`tick, cmd.world`now, cmd.world`components, cmd.world`queries, cmd.world`builtAt
      ensures (forall k, s :: 0 <= k < |list| && s in list[k].Systems() ==> Preparable(s.queries)) ==> ok
      ensures ok ==> Valid() && cmd.Valid() && old(log) <= log && cmd.world.now == old(cmd.world.now) + |list|
      ensures ok ==> cmd.Seen() == old(cmd.Seen()).(tick := cmd.world.tick)
      ensures ok ==> |handed| == |log| - |old(log)| == |list|
      ensures ok ==> forall k :: 0 <= k < |handed| ==> StepRan(list, hasExecutor, log, |old(log)|, old(cmd.world.now), handed, k)
    {
      hide *;
      handed := [];
      ghost var n, start := |log|, cmd.world.now;
      cmd.FlagSeen();
      for k := 0 to |list|
        invariant Valid() && cmd.Valid() && |handed| == k && |log| == n + k && old(log) <= log && cmd.world.now == start + k
        invariant cmd.Seen() == old(cmd.Seen()).(tick := cmd.world.tick) && systems == old(systems)
        invariant forall m :: 0 <= m < k ==> StepRan(list, hasExecutor, log, n, start, handed, m)
      {
        ghost var before := log;
        var h;
        ok, h := RunStep(list[k]);
        if !ok {
          return;
        }
        forall m | 0 <= m < k
          ensures StepRan(list, hasExecutor, log, n, start, handed + [h], m)
        {
          StepRanStill(list, hasExecutor, before, log, n, start, handed, h, m);
        }
        StepRanNow(list, hasExecutor, before, n, start, handed, h, k);
        handed := handed + [h];
      }
      ok := true;
    }

    /**
      Runs the steps of a session, and the automatic sync point behind them. A session nobody added
      to does nothing, not even synchronise.
     */
    method Run(session: nat) returns (ok: bool, handed: seq<seq<Handed>>, drops: seq<Payload>)
      requires Valid() && cmd.Valid()
      modifies this`log, systems, cmd`inParallel, cmd.world`tick, cmd.world`now, cmd.world`queries, cmd.world`builtAt
      modifies cmd`workers, cmd.world`components, cmd.world`specs, cmd.world`version, cmd.world`setIds, cmd.world`typeIds, cmd.world`addEdges,
        cmd.world`removeEdges, cmd.world`Repr, cmd.world.Repr, cmd.world.allocator
      ensures session !in steps ==> ok && handed == [] && drops == [] && log == old(log) && cmd.Valid() && cmd.Seen() == old(cmd.Seen())
      ensures ok && session in steps ==>
        && Valid() && cmd.Valid() && old(log) <= log && |handed| == |log| - |old(log)| == |steps[session]|
        && (forall k :: 0 <= k < |handed| ==> StepRan(steps[session], hasExecutor, log, |old(log)|, old(cmd.world.now), handed, k))
        && RanAndSynced(old(cmd.Seen()), old(cmd.world.now) + |steps[session]|, drops, cmd.Seen())
      ensures session in steps && (forall k, s :: 0 <= k < |steps[session]| && s in steps[session][k].Systems() ==> Preparable(s.queries))
        && (autoSync ==> AllClean(old(cmd.world.specs), old(cmd.world.Entities()), Recorded(old(cmd.workers)), TickOf(old(cmd.world.now) + |steps[session]|)))
        ==> ok
    {
      hide *;
      handed, drops := [], [];
      if session !in steps {
        return true, handed, drops;
      }
      ghost var s, time := cmd.Seen(), cmd.world.now + |steps[session]|;
      cmd.SeenParts();
      SessionOk(session);
      ok, handed := RunSteps(steps[session]);
      if !ok {
        return;
      }
      Scheduled();
      ghost var t := cmd.Seen();
      cmd.SeenParts();
      cmd.FlagSeen();
      if autoSync {
        ok, drops := cmd.FlushCmd();
        if !ok {
          return;
        }
        FlagKept(t, multiset(drops), cmd.Seen());
        cmd.FlagSeen();
        InOrder();
      }
      Synced(s, t, time, drops, cmd.Seen());
    }

    lemma SessionOk(session: nat)
      requires Valid() && session in steps
      ensures forall k :: 0 <= k < |steps[session]| ==> StepOk(steps[session][k])
    {
    }

    /** The steps moved the clock, and the sync point behind them carried out what was recorded. */
    ghost predicate RanAndSynced(s: Snapshot, time: nat, drops: seq<Payload>, u: Snapshot) {
      if autoSync then Flushed(s.(tick := TickOf(time)), multiset(drops), u) else drops == [] && u == s.(tick := TickOf(time))
    }

    lemma Synced(s: Snapshot, t: Snapshot, time: nat, drops: seq<Payload>, u: Snapshot)
      requires t == s.(tick := TickOf(time))
      requires if autoSync then Flushed(t, multiset(drops), u) else drops == [] && u == t
      ensures RanAndSynced(s, time, drops, u)
    {
      hide Flushed;
    }
  }

  lemma FlagKept(s: Snapshot, dropped: multiset<Payload>, t: Snapshot)
    requires Flushed(s, dropped, t)
    ensures t.inParallel == s.inParallel
  {
  }

  function TypesOf(group: seq<System>): (types: seq<nat>)
    ensures |types| == |group| && forall i :: 0 <= i < |group| ==> types[i] == group[i].typeId
  {
    seq(|group|, i requires 0 <= i < |group| => group[i].typeId)
  }

  function FirstOf(types: seq<nat>, t: nat): (k: nat)
    requires t in types
    ensures k < |types| && types[k] == t && forall j :: 0 <= j < k ==> types[j] != t
  {
    if types[0] == t then 0 else 1 + FirstOf(types[1..], t)
  }

  /** What system `i` of a group declares: what its type declared before, or what its first member in the group does. */
  ghost function DeclaredBy(known: map<nat, seq<S.Scope>>, types: seq<nat>, views: seq<seq<S.Scope>>, i: nat): seq<S.Scope>
    requires i < |types| == |views|
  {
    if types[i] in known then known[types[i]] else views[FirstOf(types, types[i])]
  }

  /** No system type that is new has parameters that alias each other. */
  ghost predicate Registrable(known: map<nat, seq<S.Scope>>, types: seq<nat>, views: seq<seq<S.Scope>>)
    requires |types| == |views|
  {
    forall i :: 0 <= i < |types| ==> types[i] in known || S.Coherent(views[FirstOf(types, types[i])])
  }

  /** The group is accepted: every two of its systems are compatible in what they declare. */
  ghost predicate Accepted(known: map<nat, seq<S.Scope>>, types: seq<nat>, views: seq<seq<S.Scope>>)
    requires |types| == |views|
  {
    && Registrable(known, types, views)
    && forall i, j :: 0 <= i < j < |types| ==> S.Compatible(DeclaredBy(known, types, views, i), DeclaredBy(known, types, views, j))
  }

  /** What is known once the first `n` systems were registered. */
  ghost function KnownAfter(known: map<nat, seq<S.Scope>>, types: seq<nat>, views: seq<seq<S.Scope>>, n: nat): map<nat, seq<S.Scope>>
    requires n <= |types| == |views|
  {
    if n == 0 then known
    else
      var before := KnownAfter(known, types, views, n - 1);
      if types[n - 1] in before then before else before[types[n - 1] := views[n - 1]]
  }

  /** Registration settles what a system type declares: what it declared before, or what its first member does. */
  lemma {:induction false} RegisteredDeclares(known: map<nat, seq<S.Scope>>, types: seq<nat>, views: seq<seq<S.Scope>>, n: nat, t: nat)
    requires n <= |types| == |views|
    ensures var after := KnownAfter(known, types, views, n);
      && (t in after <==> t in known || (t in types && FirstOf(types, t) < n))
      && (t in known ==> after[t] == known[t])
      && (t !in known && t in after ==> after[t] == views[FirstOf(types, t)])
  {
    if n > 0 {
      RegisteredDeclares(known, types, views, n - 1, t);
    }
  }

  /** A new type whose parameters alias each other spoils the group. */
  lemma NotRegistrable(known: map<nat, seq<S.Scope>>, types: seq<nat>, views: seq<seq<S.Scope>>, i: nat)
    requires i < |types| == |views| && types[i] !in KnownAfter(known, types, views, i) && !S.Coherent(views[i])
    ensures !Registrable(known, types, views) && !Accepted(known, types, views)
  {
    hide S.Coherent, KnownAfter;
    RegisteredDeclares(known, types, views, i, types[i]);
    assert FirstOf(types, types[i]) == i;
  }

  /** Registers the systems of a group and runs the conflict test on what they declare. */
  method CheckGroup(types: seq<nat>, params: seq<seq<S.AccessScope>>, specs: S.SystemSpecs) returns (ok: bool)
    requires |params| == |types|
    modifies specs
    ensures ok <==> Accepted(old(specs.View()), types, old(S.ViewsOf(params)))
  {
    hide *;
    ghost var known, views := specs.View(), S.ViewsOf(params);
    NothingRegistered(known, types, views);
    var i := 0;
    while i < |types|
      invariant i <= |types| && S.ViewsOf(params) == views && specs.View() == KnownAfter(known, types, views, i)
      invariant forall k :: 0 <= k < i ==> RegistersFine(known, types, views, k)
    {
      KnownSteps(known, types, views, i);
      var registered := specs.Register(types[i], params[i]);
      if !registered {
        NotRegistrable(known, types, views, i);
        return false;
      }
      i := i + 1;
    }
    RegisteredGroup(known, types, views);
    var checked := specs.CheckGroupCanParallel(types, KnownAfter(known, types, views, |types|));
    ok := checked.Success?;
  }

  ghost predicate RegistersFine(known: map<nat, seq<S.Scope>>, types: seq<nat>, views: seq<seq<S.Scope>>, i: nat)
    requires i < |types| == |views|
  {
    types[i] in KnownAfter(known, types, views, i) || S.Coherent(views[i])
  }

  lemma KnownSteps(known: map<nat, seq<S.Scope>>, types: seq<nat>, views: seq<seq<S.Scope>>, i: nat)
    requires i < |types| == |views|
    ensures var before := KnownAfter(known, types, views, i);
      KnownAfter(known, types, views, i + 1) == if types[i] in before then before else before[types[i] := views[i]]
    ensures RegistersFine(known, types, views, i) <==> types[i] in KnownAfter(known, types, views, i) || S.Coherent(views[i])
  {
  }

  lemma NothingRegistered(known: map<nat, seq<S.Scope>>, types: seq<nat>, views: seq<seq<S.Scope>>)
    requires |types| == |views|
    ensures KnownAfter(known, types, views, 0) == known
  {
  }

  /** With every system registered, the conflict test decides. */
  lemma RegisteredGroup(known: map<nat, seq<S.Scope>>, types: seq<nat>, views: seq<seq<S.Scope>>)
    requires |types| == |views| && forall k :: 0 <= k < |types| ==> RegistersFine(known, types, views, k)
    ensures Accepted(known, types, views) <==> S.MayRunTogether(KnownAfter(known, types, views, |types|), types)
  {
    hide S.Compatible, S.Coherent, KnownAfter;
    var final := KnownAfter(known, types, views, |types|);
    forall i | 0 <= i < |types|
      ensures types[i] in final && final[types[i]] == DeclaredBy(known, types, views, i)
      ensures types[i] in known || S.Coherent(views[FirstOf(types, types[i])])
    {
      var first := FirstOf(types, types[i]);
      RegisteredDeclares(known, types, views, |types|, types[i]);
      RegisteredDeclares(known, types, views, first, types[i]);
      assert RegistersFine(known, types, views, first);
    }
  }

  lemma {:induction false} NeverRan(log: seq<Entry>, s: System)
    requires forall i :: 0 <= i < |log| ==> s !in log[i].systems
    ensures LastTime(log, s) == 0
  {
    if log != [] {
      NeverRan(log[..|log| - 1], s);
    }
  }
}
