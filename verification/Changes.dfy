/**
  Change detection on rows. What happened to an entity, at which times, decides the ticks in its
  cells; the cells and the windows of a schedule decide what the filters report.
 */
module Changes {
  import opened Prelude
  import opened Layouts
  import opened Bytes
  import opened Entities
  import opened Cells
  import opened Bundles
  import opened Rows
  import opened Ticks
  import opened Commands
  import opened Schedules
  import opened Runs
  import S = Scopes
  import D = Directories

  /** The tests the row filters make on the cell of the component they wrap. */
  predicate AcceptsChanged(cell: Cell, window: Window) {
    cell.changed.Some? && IsNewerThan(cell.changed.value, window)
  }

  predicate AcceptsAdded(cell: Cell, window: Window) {
    cell.added.Some? && IsNewerThan(cell.added.value, window)
  }

  // ---------------------------------------------------------------------------------------------
  // Histories
  // ---------------------------------------------------------------------------------------------

  /** A change of the map: a command carried out, or a write through a query. */
  datatype Event = Did(cmd: Command) | Wrote(e: Entity, c: Component, edit: RowEdit)

  datatype Stamped = Stamped(event: Event, time: nat)

  function Happened(m: D.EntityMap, event: Event, tick: Tick): D.EntityMap {
    match event
    case Did(cmd) => Apply(m, cmd, tick)
    case Wrote(e, c, edit) => if e in m then m[e := EditedCells(m[e], c, edit, tick)] else m
  }

  /** What a history leaves of an empty world. */
  function After(hist: seq<Stamped>): D.EntityMap {
    if hist == [] then map[]
    else
      var last := hist[|hist| - 1];
      Happened(After(hist[..|hist| - 1]), last.event, TickOf(last.time))
  }

  predicate Holds(m: D.EntityMap, e: Entity, c: Component) {
    e in m && c in m[e]
  }

  /** The event counts as a write of the component: not a flip of its bit, nor a write past change detection. */
  predicate IsWrite(event: Event, e: Entity, c: Component) {
    match event
    case Did(Create(f, _, val)) => f == e && Names(val, c)
    case Did(Add(f, _, val)) => f == e && Names(val, c)
    case Did(Merge(f, _, val)) => f == e && Names(val, c)
    case Did(_) => false
    case Wrote(f, d, edit) => f == e && d == c && (edit.MarkChanged? || (edit.Assign? && !edit.quiet))
  }

  /** The event gives the entity a component it does not have. */
  predicate IsArrival(m: D.EntityMap, event: Event, e: Entity, c: Component) {
    event.Did? && IsWrite(event, e, c) && (event.cmd.Create? || !Holds(m, e, c))
  }

  /** When the component was last written. */
  function LastWrite(hist: seq<Stamped>, e: Entity, c: Component): Option<nat> {
    if hist == [] then None
    else if IsWrite(hist[|hist| - 1].event, e, c) then Some(hist[|hist| - 1].time)
    else LastWrite(hist[..|hist| - 1], e, c)
  }

  /** When the component last came to the entity. */
  function LastArrival(hist: seq<Stamped>, e: Entity, c: Component): Option<nat> {
    if hist == [] then None
    else if IsArrival(After(hist[..|hist| - 1]), hist[|hist| - 1].event, e, c) then Some(hist[|hist| - 1].time)
    else LastArrival(hist[..|hist| - 1], e, c)
  }

  /** One event sets the ticks of what it writes, and moves no other. */
  lemma EventStamps(m: D.EntityMap, event: Event, tick: Tick, e: Entity, c: Component)
    requires Holds(Happened(m, event, tick), e, c) && c.changeAble
    ensures var cell := Happened(m, event, tick)[e][c];
      && (!Holds(m, e, c) ==> IsArrival(m, event, e, c))
      && (if IsWrite(event, e, c) then cell.changed == Some(tick) else cell.changed == m[e][c].changed)
      && (if IsArrival(m, event, e, c) then cell.added == Some(tick) else cell.added == m[e][c].added)
  {
    hide ComponentsIn;
  }

  /** Wherever its row moved since, a component's ticks are those of its last write and of its arrival. */
  lemma {:induction false} TicksOfHistory(hist: seq<Stamped>, e: Entity, c: Component)
    requires Holds(After(hist), e, c) && c.changeAble
    ensures var w := LastWrite(hist, e, c); w.Some? && After(hist)[e][c].changed == Some(TickOf(w.value))
    ensures var w := LastArrival(hist, e, c); w.Some? && After(hist)[e][c].added == Some(TickOf(w.value))
  {
    hide Happened, IsWrite, IsArrival;
    var n := |hist| - 1;
    var m := After(hist[..n]);
    EventStamps(m, hist[n].event, TickOf(hist[n].time), e, c);
    if Holds(m, e, c) {
      TicksOfHistory(hist[..n], e, c);
    } else {
      assert IsWrite(hist[n].event, e, c) by { ArrivalsAreWrites(m, hist[n].event, e, c); }
    }
  }

  lemma ArrivalsAreWrites(m: D.EntityMap, event: Event, e: Entity, c: Component)
    requires IsArrival(m, event, e, c)
    ensures event.Did? && IsWrite(event, e, c)
  {
  }

  lemma {:induction false} TimeOfLast(hist: seq<Stamped>, e: Entity, c: Component)
    ensures var w := LastWrite(hist, e, c); w.Some? ==> exists i :: 0 <= i < |hist| && hist[i].time == w.value
    ensures var w := LastArrival(hist, e, c); w.Some? ==> exists i :: 0 <= i < |hist| && hist[i].time == w.value
  {
    hide IsWrite, IsArrival;
    if hist != [] {
      var n := |hist| - 1;
      TimeOfLast(hist[..n], e, c);
      assert forall i :: 0 <= i < n ==> hist[..n][i] == hist[i];
    }
  }

  // ---------------------------------------------------------------------------------------------
  // Where values, enable bits and components come from
  // ---------------------------------------------------------------------------------------------

  /** The value the component was last given, by a bundle or an assignment through a query. */
  function LastValue(hist: seq<Stamped>, e: Entity, c: Component): Option<seq<byte>> {
    if hist == [] then None
    else
      var event := hist[|hist| - 1].event;
      if event.Did? && IsWrite(event, e, c) then Some(ItemFor(event.cmd.val, c).value)
      else if event.Wrote? && event.e == e && event.c == c && event.edit.Assign? then Some(event.edit.value)
      else LastValue(hist[..|hist| - 1], e, c)
  }

  /** What the enable bit was last set to, by `set_enabled` or by the default the component arrived with. */
  function LastEnabled(hist: seq<Stamped>, e: Entity, c: Component): Option<bool> {
    if hist == [] then None
    else
      var event := hist[|hist| - 1].event;
      if IsArrival(After(hist[..|hist| - 1]), event, e, c) then Some(ItemFor(event.cmd.val, c).enable)
      else if event.Wrote? && event.e == e && event.c == c && event.edit.SetEnabled? then Some(event.edit.on)
      else LastEnabled(hist[..|hist| - 1], e, c)
  }

  /** One event writes the value it names and sets the bit it names. */
  lemma EventWrites(m: D.EntityMap, event: Event, tick: Tick, e: Entity, c: Component)
    requires Holds(Happened(m, event, tick), e, c)
    ensures var cell := Happened(m, event, tick)[e][c];
      && (!Holds(m, e, c) ==> IsArrival(m, event, e, c))
      && cell.value == (if event.Did? && IsWrite(event, e, c) then ItemFor(event.cmd.val, c).value
                        else if event.Wrote? && event.e == e && event.c == c && event.edit.Assign? then event.edit.value
                        else m[e][c].value)
      && (c.enableAble ==>
            cell.enabled == (if IsArrival(m, event, e, c) then Some(ItemFor(event.cmd.val, c).enable)
                             else if event.Wrote? && event.e == e && event.c == c && event.edit.SetEnabled? then Some(event.edit.on)
                             else m[e][c].enabled))
  {
    hide ComponentsIn;
  }

  /**
    Wherever its row moved since, a component has the value it was last given, and its enable bit is
    what `set_enabled` last made it, or else the default it arrived with: overwriting a component it
    had already, or assigning through a query, changes no bit.
   */
  lemma {:induction false} CellOfHistory(hist: seq<Stamped>, e: Entity, c: Component)
    requires Holds(After(hist), e, c)
    ensures LastValue(hist, e, c) == Some(After(hist)[e][c].value)
    ensures c.enableAble ==> LastEnabled(hist, e, c).Some? && After(hist)[e][c].enabled == LastEnabled(hist, e, c)
  {
    hide Happened, IsWrite, IsArrival, ItemFor;
    var n := |hist| - 1;
    var m := After(hist[..n]);
    EventWrites(m, hist[n].event, TickOf(hist[n].time), e, c);
    if Holds(m, e, c) {
      CellOfHistory(hist[..n], e, c);
    } else {
      ArrivalsAreWrites(m, hist[n].event, e, c);
    }
  }

  /** The event gives the component to an entity that is there or comes into being. */
  predicate Gives(m: D.EntityMap, event: Event, e: Entity, c: Component) {
    match event
    case Did(Create(f, _, val)) => f == e && Names(val, c)
    case Did(Add(f, _, val)) => f == e && e in m && Names(val, c)
    case Did(Merge(f, _, val)) => f == e && e in m && Names(val, c)
    case _ => false
  }

  /** The event takes the component off the entity, or the entity away. */
  predicate Takes(event: Event, e: Entity, c: Component) {
    match event
    case Did(Create(f, _, val)) => f == e && !Names(val, c)
    case Did(Remove(f, t)) => f == e && c in t.ComponentSet()
    case Did(Destroy(f)) => f == e
    case _ => false
  }

  lemma EventHolds(m: D.EntityMap, event: Event, tick: Tick, e: Entity, c: Component)
    ensures Holds(Happened(m, event, tick), e, c) <==> Gives(m, event, e, c) || (Holds(m, e, c) && !Takes(event, e, c))
    ensures Gives(m, event, e, c) ==> !Takes(event, e, c)
  {
    hide ComponentsIn, BundleType.ComponentSet;
  }

  /** Event `i` gave the component to the entity, and none took it since. */
  ghost predicate KeptSince(hist: seq<Stamped>, i: nat, e: Entity, c: Component) {
    i < |hist| && Gives(After(hist[..i]), hist[i].event, e, c) && forall j :: i < j < |hist| ==> !Takes(hist[j].event, e, c)
  }

  lemma KeptOneMore(hist: seq<Stamped>, i: nat, e: Entity, c: Component)
    requires hist != []
    ensures var n := |hist| - 1;
      KeptSince(hist, i, e, c) <==>
        if i < n then KeptSince(hist[..n], i, e, c) && !Takes(hist[n].event, e, c)
        else i == n && Gives(After(hist[..n]), hist[n].event, e, c)
  {
    hide Gives, Takes, After;
    var n := |hist| - 1;
    if i < n {
      assert hist[..n][..i] == hist[..i];
      assert forall j :: 0 <= j < n ==> hist[..n][j] == hist[j];
    }
  }

  /** An entity has a component exactly when some event gave it and none took it since. */
  lemma {:induction false} HeldOfHistory(hist: seq<Stamped>, e: Entity, c: Component)
    ensures Holds(After(hist), e, c) <==> exists i :: KeptSince(hist, i, e, c)
  {
    hide Happened, Gives, Takes, KeptSince;
    if hist == [] {
      NothingKept(e, c);
    } else {
      var n := |hist| - 1;
      HeldOfHistory(hist[..n], e, c);
      EventHolds(After(hist[..n]), hist[n].event, TickOf(hist[n].time), e, c);
      forall i: nat
        ensures KeptSince(hist[..n], i, e, c) ==> i < n
        ensures KeptSince(hist, i, e, c) <==>
          if i < n then KeptSince(hist[..n], i, e, c) && !Takes(hist[n].event, e, c) else i == n && Gives(After(hist[..n]), hist[n].event, e, c)
      {
        KeptOneMore(hist, i, e, c);
        if KeptSince(hist[..n], i, e, c) {
          KeptInside(hist[..n], i, e, c);
        }
      }
      assert Gives(After(hist[..n]), hist[n].event, e, c) ==> KeptSince(hist, n, e, c);
    }
  }

  lemma KeptInside(hist: seq<Stamped>, i: nat, e: Entity, c: Component)
    requires KeptSince(hist, i, e, c)
    ensures i < |hist|
  {
  }

  lemma NothingKept(e: Entity, c: Component)
    ensures forall i :: !KeptSince([], i, e, c)
  {
  }

  // ---------------------------------------------------------------------------------------------
  // The history of a program
  // ---------------------------------------------------------------------------------------------

  function Stamps(events: seq<Event>, time: nat): (hist: seq<Stamped>)
    ensures |hist| == |events| && forall i :: 0 <= i < |hist| ==> hist[i] == Stamped(events[i], time)
  {
    seq(|events|, i requires 0 <= i < |events| => Stamped(events[i], time))
  }

  function Dids(cmds: seq<Command>): (events: seq<Event>)
    ensures |events| == |cmds| && forall i :: 0 <= i < |events| ==> events[i] == Did(cmds[i])
  {
    seq(|cmds|, i requires 0 <= i < |cmds| => Did(cmds[i]))
  }

  /** What one operation that gave answer `a` did to the map. */
  function EventsOf(op: Operation, s: Snapshot, a: Answer): seq<Event> {
    match op
    case Spawn(_, t, val) => if a.Gave? && !s.inParallel then [Did(Create(a.e, t, val))] else []
    case SpawnSingleton(t, val) => if a.Gave? then [Did(Create(a.e, t, val))] else []
    case Perform(_, cmd) => if a.Refused? || s.inParallel then [] else [Did(cmd)]
    case Write(e, c, edit) => if a == Fine then [Wrote(e, c, edit)] else []
    case Sync => Dids(Recorded(s.workers))
    case _ => []
  }

  /** The world's time before operation `n` of a program that starts at time `start`. */
  function ProgramTime(ops: seq<Operation>, start: nat, n: nat): nat
    requires n <= |ops|
  {
    if n == 0 then start else ProgramTime(ops, start, n - 1) + if ops[n - 1].Tick? then 1 else 0
  }

  /** What the first `n` operations did, and when. */
  function History(tr: Trace, start: nat, n: nat): seq<Stamped>
    requires n <= |tr.ops| && |tr.answers| == |tr.ops| && |tr.states| == |tr.ops| + 1
  {
    if n == 0 then []
    else
      var i := n - 1;
      History(tr, start, i) + Stamps(EventsOf(tr.ops[i], tr.states[i], tr.answers[i]), ProgramTime(tr.ops, start, i))
  }

  lemma OneMoreEvent(hist: seq<Stamped>, event: Event, time: nat)
    ensures After(hist + Stamps([event], time)) == Happened(After(hist), event, TickOf(time))
  {
    assert hist + Stamps([event], time) == hist + [Stamped(event, time)];
    assert (hist + [Stamped(event, time)])[..|hist|] == hist;
  }

  /** A sync point is its commands, one after another, all at the time of the step before it. */
  lemma {:induction false} SyncedEvents(hist: seq<Stamped>, cmds: seq<Command>, time: nat)
    ensures After(hist + Stamps(Dids(cmds), time)) == ApplyAll(After(hist), cmds, TickOf(time))
  {
    hide Happened;
    var all := hist + Stamps(Dids(cmds), time);
    if cmds == [] {
      assert all == hist;
    } else {
      var n := |cmds| - 1;
      SyncedEvents(hist, cmds[..n], time);
      assert all[..|all| - 1] == hist + Stamps(Dids(cmds[..n]), time);
      assert Happened(After(hist + Stamps(Dids(cmds[..n]), time)), Did(cmds[n]), TickOf(time))
          == Apply(After(hist + Stamps(Dids(cmds[..n]), time)), cmds[n], TickOf(time)) by { DoneOne(After(hist + Stamps(Dids(cmds[..n]), time)), cmds[n], TickOf(time)); }
    }
  }

  lemma DoneOne(m: D.EntityMap, cmd: Command, tick: Tick)
    ensures Happened(m, Did(cmd), tick) == Apply(m, cmd, tick)
  {
  }

  /** One operation does to the map what its events do. */
  lemma StepHappens(op: Operation, s: Snapshot, a: Answer, dropped: seq<Payload>, t: Snapshot, hist: seq<Stamped>, time: nat)
    requires Means(op, s, a, dropped, t) && s.entities == After(hist) && s.tick == TickOf(time)
    ensures t.entities == After(hist + Stamps(EventsOf(op, s, a), time))
    ensures t.tick == TickOf(if op.Tick? then time + 1 else time)
  {
    hide Overlay, Recorded, Payloads, ValuesOf, WithCommand, Enlisted, Refusal, NoneRefused, Emptied, After, ApplyAll;
    hide EditedCells, RowEdit.Gives, GivenBy, BornByAll, RoomMadeByAll, Restricted;
    NextTickOf(time);
    if op.Sync? {
      SyncedEvents(hist, Recorded(s.workers), time);
    } else if EventsOf(op, s, a) == [] {
      assert hist + Stamps([], time) == hist;
    } else {
      OneMoreEvent(hist, EventsOf(op, s, a)[0], time);
    }
  }

  /** Along every program the map is what its history leaves. */
  lemma {:induction false} EntitiesOfRun(tr: Trace, start: nat, n: nat)
    requires Follows(tr) && Blank(tr.states[0]) && tr.states[0].tick == TickOf(start) && n <= |tr.ops|
    ensures tr.states[n].entities == After(History(tr, start, n)) && tr.states[n].tick == TickOf(ProgramTime(tr.ops, start, n))
    ensures forall i :: 0 <= i < |History(tr, start, n)| ==> start <= History(tr, start, n)[i].time <= ProgramTime(tr.ops, start, n)
    ensures start <= ProgramTime(tr.ops, start, n)
  {
    hide Means, Sound, After, EventsOf;
    if n > 0 {
      var i := n - 1;
      EntitiesOfRun(tr, start, i);
      StepHappens(tr.ops[i], tr.states[i], tr.answers[i], tr.drops[i], tr.states[n], History(tr, start, i), ProgramTime(tr.ops, start, i));
    } else {
      assert After([]) == map[] by { NothingHappened(); }
    }
  }

  lemma NothingHappened()
    ensures After([]) == map[]
  {
  }

  /** So every cell of every program is told by what the program did: that it is there, its value and its enable bit. */
  lemma CellsOfProgram(tr: Trace, start: nat, n: nat, e: Entity, c: Component)
    requires Follows(tr) && Blank(tr.states[0]) && tr.states[0].tick == TickOf(start) && n <= |tr.ops|
    ensures var hist, m := History(tr, start, n), tr.states[n].entities;
      && (Holds(m, e, c) <==> exists i :: KeptSince(hist, i, e, c))
      && (Holds(m, e, c) ==> LastValue(hist, e, c) == Some(m[e][c].value))
      && (Holds(m, e, c) && c.enableAble ==> LastEnabled(hist, e, c).Some? && m[e][c].enabled == LastEnabled(hist, e, c))
  {
    hide Means, Sound, Blank, History, After, LastValue, LastEnabled, ProgramTime, KeptSince;
    EntitiesOfRun(tr, start, n);
    HeldOfHistory(History(tr, start, n), e, c);
    if Holds(tr.states[n].entities, e, c) {
      CellOfHistory(History(tr, start, n), e, c);
    }
  }

  // ---------------------------------------------------------------------------------------------
  // What the filters report
  // ---------------------------------------------------------------------------------------------

  /** The system ran in a step before `k` that started at `time` or later. */
  ghost predicate RanSince(log: seq<Entry>, s: System, time: nat, k: nat)
    requires k <= |log|
  {
    exists j :: 0 <= j < k && time <= log[j].time && s in log[j].systems
  }

  /** The previous run, and the time the stamp was made, lie less than the range of the ticks before step `k`. */
  ghost predicate InRange(log: seq<Entry>, s: System, k: nat, stamp: Option<nat>)
    requires k < |log|
  {
    log[k].time - LastTime(log[..k], s) < TICK_RANGE && (stamp.Some? ==> log[k].time - stamp.value < TICK_RANGE)
  }

  /**
    What a system finds when it runs in step `k`: `Changed` accepts a row exactly when the system ran
    in no step since the component was last written, whatever moves the row made in between, and
    `Added` exactly when it ran in none since the component came to the entity.
   */
  lemma RowReportedExactlyOnce(hist: seq<Stamped>, e: Entity, c: Component, log: seq<Entry>, s: System, k: nat)
    requires Holds(After(hist), e, c) && c.changeAble
    requires Chronological(log) && k < |log| && forall i :: 0 <= i < |hist| ==> 0 < hist[i].time <= log[k].time
    ensures var w := LastWrite(hist, e, c);
      w.Some? && (InRange(log, s, k, w) ==> (AcceptsChanged(After(hist)[e][c], WindowIn(log, s, k)) <==> !RanSince(log, s, w.value, k)))
    ensures var w := LastArrival(hist, e, c);
      w.Some? && (InRange(log, s, k, w) ==> (AcceptsAdded(After(hist)[e][c], WindowIn(log, s, k)) <==> !RanSince(log, s, w.value, k)))
  {
    hide After, LastWrite, LastArrival, IsNewerThan, Chronological;
    TicksOfHistory(hist, e, c);
    TimeOfLast(hist, e, c);
    if InRange(log, s, k, LastWrite(hist, e, c)) {
      NewerIffNotRunSince(log, s, LastWrite(hist, e, c).value, k);
    }
    if InRange(log, s, k, LastArrival(hist, e, c)) {
      NewerIffNotRunSince(log, s, LastArrival(hist, e, c).value, k);
    }
  }

  /**
    The same for every program on a new world and every schedule over it: run `k` of the schedule
    finds the world as the first `n` operations left it.
   */
  lemma ProgramReportsExactlyOnce(tr: Trace, start: nat, n: nat, e: Entity, c: Component, log: seq<Entry>, s: System, k: nat)
    requires Follows(tr) && Blank(tr.states[0]) && start > 0 && tr.states[0].tick == TickOf(start) && n <= |tr.ops|
    requires Holds(tr.states[n].entities, e, c) && c.changeAble
    requires Chronological(log) && k < |log| && log[k].time == ProgramTime(tr.ops, start, n)
    ensures var w := LastWrite(History(tr, start, n), e, c);
      w.Some? && (InRange(log, s, k, w) ==> (AcceptsChanged(tr.states[n].entities[e][c], WindowIn(log, s, k)) <==> !RanSince(log, s, w.value, k)))
    ensures var w := LastArrival(History(tr, start, n), e, c);
      w.Some? && (InRange(log, s, k, w) ==> (AcceptsAdded(tr.states[n].entities[e][c], WindowIn(log, s, k)) <==> !RanSince(log, s, w.value, k)))
  {
    hide Means, Sound, Blank, History, After, LastWrite, LastArrival, IsNewerThan, AcceptsChanged, AcceptsAdded, RanSince, InRange, Chronological, ProgramTime;
    EntitiesOfRun(tr, start, n);
    RowReportedExactlyOnce(History(tr, start, n), e, c, log, s, k);
  }

  // ---------------------------------------------------------------------------------------------
  // Members of one group
  // ---------------------------------------------------------------------------------------------

  /** In an accepted group no system writes what another one names, in an archetype both select. */
  lemma GroupMatesKeepApart(known: map<nat, seq<S.Scope>>, types: seq<nat>, views: seq<seq<S.Scope>>, i: nat, j: nat, p: nat, q: nat, ids: set<nat>, id: nat)
    requires |types| == |views| && Accepted(known, types, views) && i < |types| && j < |types|
    requires var mine, theirs := DeclaredBy(known, types, views, i), DeclaredBy(known, types, views, j);
      && p < |mine| && q < |theirs| && S.Matches(mine[p], ids) && S.Matches(theirs[q], ids)
      && id in theirs[q].write && id in mine[p].read + mine[p].write
    ensures i == j
  {
    hide S.Compatible, S.Matches, Registrable;
    var mine, theirs := DeclaredBy(known, types, views, i), DeclaredBy(known, types, views, j);
    MeetAt(theirs[q].write, mine[p].read + mine[p].write, id);
    if i < j {
      S.CompatibleNeverCollide(mine, theirs, p, q, ids);
    } else if j < i {
      S.CompatibleNeverCollide(theirs, mine, q, p, ids);
    }
  }

  lemma MeetAt(a: set<nat>, b: set<nat>, id: nat)
    requires id in a && id in b
    ensures a * b != {}
  {
    assert id in a * b;
  }

  /**
    Where a system's own query selects the row at the time of the write, nothing is lost: a write
    made in step `w` by member `j` of an accepted group is reported at run `k` of the system exactly
    when the system is not the writer and did not run in between.
   */
  lemma SelectedRowsAreReported(known: map<nat, seq<S.Scope>>, group: seq<System>, views: seq<seq<S.Scope>>, j: nat, q: nat,
                                s: System, scope: S.Scope, ids: set<nat>, id: nat, cell: Cell, log: seq<Entry>, w: nat, k: nat)
    requires |group| == |views| && Distinct(group) && Accepted(known, TypesOf(group), views) && j < |group|
    requires var theirs := DeclaredBy(known, TypesOf(group), views, j); q < |theirs| && S.Matches(theirs[q], ids) && id in theirs[q].write
    requires S.Matches(scope, ids) && id in scope.read + scope.write
    requires forall i :: 0 <= i < |group| && group[i] == s ==> scope in DeclaredBy(known, TypesOf(group), views, i)
    requires Chronological(log) && w < k < |log| && s in log[k].systems && log[w].systems == Parallel(group).Members()
    requires cell.changed == Some(TickOf(log[w].time)) && InRange(log, s, k, Some(log[w].time))
    ensures AcceptsChanged(cell, WindowIn(log, s, k)) <==> s != group[j] && forall m :: w < m < k ==> s !in log[m].systems
  {
    hide Accepted, S.Matches, DeclaredBy, IsNewerThan;
    ReportedExactlyOnce(log, s, w, k);
    if s in log[w].systems {
      var i :| 0 <= i < |group| && group[i] == s;
      var mine := DeclaredBy(known, TypesOf(group), views, i);
      var p :| 0 <= p < |mine| && mine[p] == scope;
      GroupMatesKeepApart(known, TypesOf(group), views, i, j, p, q, ids, id);
    }
  }

  // ---------------------------------------------------------------------------------------------
  // Reports that are lost
  // ---------------------------------------------------------------------------------------------

  /** `e` is made with both components at time 1; at time 2 the first is written, and then the second goes. */
  function MovedRow(e: Entity, c: Component, d: Component, t: BundleType, v: seq<byte>): seq<Stamped> {
    [Stamped(Did(Create(e, t, [Item(c, v, true), Item(d, v, true)])), 1),
     Stamped(Wrote(e, c, Assign(v, false)), 2),
     Stamped(Did(Remove(e, BundleType(0, [Field(d, true)]))), 2)]
  }

  /** `e` is made with the second component at time 1; the sync point behind the step of time 2 adds the first. */
  function QueuedAdd(e: Entity, c: Component, d: Component, t: BundleType, v: seq<byte>): seq<Stamped> {
    [Stamped(Did(Create(e, t, [Item(d, v, true)])), 1),
     Stamped(Did(Add(e, t, [Item(c, v, true)])), 2)]
  }

  /**
    A change of a row the group mate could not select yet. The reader excludes component 1, the
    writer requires it, so the group is accepted. Once component 1 is gone the reader selects the
    row, but at none of its later runs does `Changed` accept it.
   */
  lemma MovedRowIsLost(s: System, t: System, e: Entity, c: Component, d: Component, bt: BundleType, v: seq<byte>, log: seq<Entry>, k: nat)
    requires s.typeId != t.typeId && c != d && c.changeAble
    requires Chronological(log) && 0 < k < |log| && log[0] == Entry({s, t}, 2) && InRange(log, s, k, Some(2))
    ensures var reader, writer := S.Scope({0}, {}, {1}), S.Scope({1}, {0}, {});
      Accepted(map[], TypesOf([s, t]), [[reader], [writer]]) && S.Matches(writer, {0, 1}) && S.Matches(reader, {0})
    ensures var m := After(MovedRow(e, c, d, bt, v));
      e in m && m[e].Keys == {c} && LastWrite(MovedRow(e, c, d, bt, v), e, c) == Some(2) && !AcceptsChanged(m[e][c], WindowIn(log, s, k))
  {
    ApartIsAccepted(s, t);
    var hist := MovedRow(e, c, d, bt, v);
    MovedRowLeaves(e, c, d, bt, v);
    assert RanSince(log, s, 2, k);
    RowReportedExactlyOnce(hist, e, c, log, s, k);
  }

  /** A change queued in a group lands at its tick, so no system that ran in the group ever reports it. */
  lemma QueuedChangeIsLost(s: System, e: Entity, c: Component, d: Component, bt: BundleType, v: seq<byte>, log: seq<Entry>, k: nat)
    requires c != d && c.changeAble
    requires Chronological(log) && 0 < k < |log| && s in log[0].systems && log[0].time == 2 && InRange(log, s, k, Some(2))
    ensures var m := After(QueuedAdd(e, c, d, bt, v));
      e in m && c in m[e] && !AcceptsChanged(m[e][c], WindowIn(log, s, k)) && !AcceptsAdded(m[e][c], WindowIn(log, s, k))
  {
    var hist := QueuedAdd(e, c, d, bt, v);
    QueuedAddLeaves(e, c, d, bt, v);
    assert RanSince(log, s, 2, k);
    RowReportedExactlyOnce(hist, e, c, log, s, k);
  }

  lemma ApartIsAccepted(s: System, t: System)
    requires s.typeId != t.typeId
    ensures var reader, writer := S.Scope({0}, {}, {1}), S.Scope({1}, {0}, {});
      Accepted(map[], TypesOf([s, t]), [[reader], [writer]]) && S.Matches(writer, {0, 1}) && S.Matches(reader, {0})
  {
    var reader, writer := S.Scope({0}, {}, {1}), S.Scope({1}, {0}, {});
    MeetAt(reader.exclude, writer.read, 1);
    assert S.Compatible([reader], [writer]);
    var types := TypesOf([s, t]);
    assert FirstOf(types, types[0]) == 0 && FirstOf(types, types[1]) == 1;
  }

  lemma MovedRowLeaves(e: Entity, c: Component, d: Component, t: BundleType, v: seq<byte>)
    requires c != d
    ensures var hist := MovedRow(e, c, d, t, v); e in After(hist) && After(hist)[e].Keys == {c} && LastWrite(hist, e, c) == Some(2)
  {
    hide Happened, IsWrite, After;
    var hist := MovedRow(e, c, d, t, v);
    OneEvent(hist[0]);
    NextEvent(hist, 1);
    NextEvent(hist, 2);
    assert hist[..1] == [hist[0]] && hist[..3] == hist;
    KeysMove(After(hist[..1]), After(hist[..2]), e, c, d, t, v);
    assert !IsWrite(hist[2].event, e, c) && IsWrite(hist[1].event, e, c) by { WritesOfMove(e, c, d, v); }
  }

  /** Two components come, one is written, one goes. */
  lemma KeysMove(m1: D.EntityMap, m2: D.EntityMap, e: Entity, c: Component, d: Component, t: BundleType, v: seq<byte>)
    requires c != d
    requires m1 == Happened(map[], Did(Create(e, t, [Item(c, v, true), Item(d, v, true)])), TickOf(1))
    requires m2 == Happened(m1, Wrote(e, c, Assign(v, false)), TickOf(2))
    ensures var m3 := Happened(m2, Did(Remove(e, BundleType(0, [Field(d, true)]))), TickOf(2)); e in m3 && m3[e].Keys == {c}
  {
    var val := [Item(c, v, true), Item(d, v, true)];
    ItemForIndex(val, 0);
    ItemForIndex(val, 1);
    assert m1[e].Keys == {c, d};
    var one := BundleType(0, [Field(d, true)]);
    assert one.fields[0].component == d;
    assert one.ComponentSet() == {d};
  }

  lemma WritesOfMove(e: Entity, c: Component, d: Component, v: seq<byte>)
    ensures IsWrite(Wrote(e, c, Assign(v, false)), e, c) && !IsWrite(Did(Remove(e, BundleType(0, [Field(d, true)]))), e, c)
  {
  }

  lemma NextEvent(hist: seq<Stamped>, n: nat)
    requires n < |hist|
    ensures After(hist[..n + 1]) == Happened(After(hist[..n]), hist[n].event, TickOf(hist[n].time))
  {
    assert hist[..n + 1][..n] == hist[..n];
  }

  lemma QueuedAddLeaves(e: Entity, c: Component, d: Component, t: BundleType, v: seq<byte>)
    requires c != d
    ensures var hist := QueuedAdd(e, c, d, t, v); Holds(After(hist), e, c) && LastWrite(hist, e, c) == Some(2) && LastArrival(hist, e, c) == Some(2)
  {
    var hist := QueuedAdd(e, c, d, t, v);
    OneEvent(hist[0]);
    assert hist[..1] == [hist[0]] && hist[..2] == hist;
    assert Names([Item(c, v, true)], c);
  }

  lemma OneEvent(event: Stamped)
    ensures After([event]) == Happened(map[], event.event, TickOf(event.time))
  {
    assert [event][..0] == [];
  }
}
