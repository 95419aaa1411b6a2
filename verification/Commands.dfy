/**
  Commands: applied at once outside a parallel group, recorded per worker thread inside one and
  applied at the next sync point, worker by worker in registration order, first in first out.
 */
module Commands {
  import opened Prelude
  import opened Layouts
  import opened Bytes
  import opened Entities
  import opened Cells
  import opened Bundles
  import opened Rows
  import opened Accounts
  import opened Allocators
  import opened Registries
  import opened Ticks
  import opened Worlds

  const PRE_ALLOCATED: nat := 32

  datatype Command =
    | Create(e: Entity, t: BundleType, val: Bundle)
    | Add(e: Entity, t: BundleType, val: Bundle)
    | Merge(e: Entity, t: BundleType, val: Bundle)
    | Remove(e: Entity, t: BundleType)
    | Destroy(e: Entity)
  {
    ghost predicate WellFormed() {
      match this
      case Create(_, t, val) => ValueOf(t, val)
      case Add(_, t, val) => ValueOf(t, val) && t.fields != []
      case Merge(_, t, val) => ValueOf(t, val)
      case Remove(_, t) => t.fields != []
      case Destroy(_) => true
    }

    /** The values the command carries. */
    function Given(): multiset<Payload> {
      match this
      case Create(_, _, val) => multiset(Payloads(val))
      case Add(_, _, val) => multiset(Payloads(val))
      case Merge(_, _, val) => multiset(Payloads(val))
      case _ => multiset{}
    }
  }

  /** What a command that succeeds does to the map. */
  function Apply(m: D.EntityMap, cmd: Command, tick: Tick): D.EntityMap {
    match cmd
    case Create(e, _, val) => m[e := Overlay(map[], val, tick)]
    case Add(e, _, val) => if e in m then m[e := Overlay(m[e], val, tick)] else m
    case Merge(e, _, val) => if e in m then m[e := Overlay(m[e], val, tick)] else m
    case Remove(e, t) => if e in m then m[e := Restricted(m[e], m[e].Keys - t.ComponentSet())] else m
    case Destroy(e) => m - {e}
  }

  function ApplyAll(m: D.EntityMap, cmds: seq<Command>, tick: Tick): D.EntityMap {
    if cmds == [] then m else Apply(ApplyAll(m, cmds[..|cmds| - 1], tick), cmds[|cmds| - 1], tick)
  }

  /** Why the command would be refused, if it would. */
  ghost function Refusal(specs: seq<ArchetypeSpec>, m: D.EntityMap, cmd: Command): Option<WorldError> {
    match cmd
    case Create(_, t, _) =>
      if IsSingleton(specs, t.ComponentSet()) && D.SomeoneHas(m, t.ComponentSet()) then Some(SingletonAlreadyExists) else None
    case Add(e, t, _) =>
      if e !in m then Some(EntityDoesNotExist) else Objection(specs, m[e].Keys, t, true)
    case Merge(e, t, _) =>
      if e !in m then Some(EntityDoesNotExist)
      else if t.ComponentSet() <= m[e].Keys then None
      else if Locked(specs, m[e].Keys) || Locked(specs, m[e].Keys + t.ComponentSet()) then Some(StructureChangeNotAllowed)
      else None
    case Remove(e, t) =>
      if e !in m then Some(EntityDoesNotExist) else Objection(specs, m[e].Keys, t, false)
    case Destroy(e) =>
      if e !in m then Some(EntityDoesNotExist) else None
  }

  /**
    The refusals by name. A lock counts at either end of a move: the components the entity has, and
    those it would have.
   */
  lemma WhyRefused(specs: seq<ArchetypeSpec>, m: D.EntityMap, cmd: Command, tick: Tick)
    requires cmd.WellFormed()
    ensures var why := Refusal(specs, m, cmd);
      && (why == Some(EntityDoesNotExist) <==> !cmd.Create? && cmd.e !in m)
      && (why == Some(ComponentAlreadyExists) <==> cmd.Add? && cmd.e in m && exists c :: c in m[cmd.e] && c in cmd.t.ComponentSet())
      && (why == Some(ComponentNotFound) <==> cmd.Remove? && cmd.e in m && exists c :: c in cmd.t.ComponentSet() && c !in m[cmd.e])
      && (why == Some(SingletonAlreadyExists) <==>
            cmd.Create? && IsSingleton(specs, cmd.t.ComponentSet()) && exists f :: f in m && m[f].Keys == cmd.t.ComponentSet())
      && (why == Some(StructureChangeNotAllowed) <==>
            && (cmd.Add? || cmd.Merge? || cmd.Remove?) && cmd.e in m
            && why != Some(ComponentAlreadyExists) && why != Some(ComponentNotFound)
            && Apply(m, cmd, tick)[cmd.e].Keys != m[cmd.e].Keys
            && (Locked(specs, m[cmd.e].Keys) || Locked(specs, Apply(m, cmd, tick)[cmd.e].Keys)))
      && (why.Some? ==> why.value in {EntityDoesNotExist, ComponentAlreadyExists, ComponentNotFound, SingletonAlreadyExists, StructureChangeNotAllowed})
  {
    hide Locked, IsSingleton, ComponentsIn, Objection, Apply, BundleType.ComponentSet;
    if cmd.Add? || cmd.Merge? || cmd.Remove? {
      KeysApplied(m, cmd, tick);
      if cmd.e in m {
        Objections(specs, m[cmd.e].Keys, cmd.t, cmd.Add?);
        if !cmd.Merge? {
          NewcomersDiffer(m[cmd.e].Keys, cmd.t);
        }
      }
    }
  }

  /** The components an entity has after a command. */
  lemma KeysApplied(m: D.EntityMap, cmd: Command, tick: Tick)
    requires cmd.WellFormed() && (cmd.Add? || cmd.Merge? || cmd.Remove?)
    ensures cmd.e in m ==>
      && cmd.e in Apply(m, cmd, tick)
      && Apply(m, cmd, tick)[cmd.e].Keys == if cmd.Remove? then m[cmd.e].Keys - cmd.t.ComponentSet() else m[cmd.e].Keys + cmd.t.ComponentSet()
  {
    hide ComponentsIn, BundleType.ComponentSet;
    if !cmd.Remove? {
      ValueComponents(cmd.t, cmd.val);
    }
  }

  /** A layout the command needs, for a component set without an archetype, could fail to be built. */
  ghost predicate MayEnd(specs: seq<ArchetypeSpec>, m: D.EntityMap, cmd: Command) {
    match cmd
    case Create(_, t, _) => CannotHost(specs, t, DEFAULT_KIND)
    case Add(e, t, _) => e in m && MayPanic(specs, t, m[e].Keys + t.ComponentSet())
    case Merge(e, t, _) => e in m && MayPanic(specs, t, m[e].Keys + t.ComponentSet())
    case Remove(e, t) => e in m && MayPanic(specs, t, m[e].Keys - t.ComponentSet())
    case Destroy(_) => false
  }

  /** Between archetypes that exist no command ends the run. */
  lemma KnownNeverEnds(specs: seq<ArchetypeSpec>, m: D.EntityMap, cmd: Command, tick: Tick)
    requires cmd.WellFormed() && !cmd.Destroy? && DistinctFields(cmd.t) && Known(specs, cmd.t.ComponentSet())
    requires !cmd.Create? && cmd.e in m ==> Known(specs, Apply(m, cmd, tick)[cmd.e].Keys)
    ensures !MayEnd(specs, m, cmd)
  {
    hide Known, BundleType.ComponentSet, DistinctFields, Apply;
    if !cmd.Create? {
      KeysApplied(m, cmd, tick);
    }
  }

  /** Nothing stands in the way of the command: it would not be refused, and no new layout could fail to be built. */
  ghost predicate Clean(specs: seq<ArchetypeSpec>, m: D.EntityMap, cmd: Command) {
    Refusal(specs, m, cmd) == None && !MayEnd(specs, m, cmd)
  }

  /** No command was refused in the state its predecessors left. */
  ghost predicate NoneRefused(specs: seq<ArchetypeSpec>, m: D.EntityMap, cmds: seq<Command>, tick: Tick) {
    forall k :: 0 <= k < |cmds| ==> Refusal(specs, ApplyAll(m, cmds[..k], tick), cmds[k]) == None
  }

  /** The handles a command brings to life. */
  function BornBy(cmd: Command): set<Entity> {
    if cmd.Create? then {cmd.e} else {}
  }

  /** How many handles a command makes room for. */
  function RoomMadeBy(cmd: Command): nat {
    if cmd.Destroy? then FreedBy(cmd.e) else 0
  }

  function BornByAll(cmds: seq<Command>): set<Entity> {
    if cmds == [] then {} else BornByAll(cmds[..|cmds| - 1]) + BornBy(cmds[|cmds| - 1])
  }

  function RoomMadeByAll(cmds: seq<Command>): nat {
    if cmds == [] then 0 else RoomMadeByAll(cmds[..|cmds| - 1]) + RoomMadeBy(cmds[|cmds| - 1])
  }

  /** Every command is clean in the state its predecessors leave. */
  ghost predicate AllClean(specs: seq<ArchetypeSpec>, m: D.EntityMap, cmds: seq<Command>, tick: Tick) {
    forall k :: 0 <= k < |cmds| ==> Clean(specs, ApplyAll(m, cmds[..k], tick), cmds[k])
  }

  /** Refusals depend on the locks alone, and those stay as they are. */
  lemma RefusalKept(specs: seq<ArchetypeSpec>, specs': seq<ArchetypeSpec>, m: D.EntityMap, cmd: Command)
    requires SameFlags(specs, specs')
    ensures Refusal(specs', m, cmd) == Refusal(specs, m, cmd)
  {
    hide Locked, IsSingleton, MayPanic, D.SomeoneHas;
  }

  /** Archetypes that were added take reasons to panic away. */
  lemma EndsFade(specs: seq<ArchetypeSpec>, specs': seq<ArchetypeSpec>, m: D.EntityMap, cmd: Command)
    requires SameFlags(specs, specs')
    ensures MayEnd(specs', m, cmd) ==> MayEnd(specs, m, cmd)
  {
    hide Locked, IsSingleton, MayPanic, CannotHost, CannotBuild;
    if !cmd.Destroy? {
      var keys := if cmd.e in m then m[cmd.e].Keys else {};
      PanicsFade(specs, specs', cmd.t, DEFAULT_KIND, if cmd.Remove? then keys - cmd.t.ComponentSet() else keys + cmd.t.ComponentSet());
    }
  }

  /** In a clean history the next command is clean now; one more that is not refused leaves none refused. */
  lemma CleanNext(specs: seq<ArchetypeSpec>, specs': seq<ArchetypeSpec>, m: D.EntityMap,
                  all: seq<Command>, done: seq<Command>, cmd: Command, rest: seq<Command>, tick: Tick)
    requires SameFlags(specs, specs') && all == done + ([cmd] + rest)
    ensures AllClean(specs, m, all, tick) ==> Clean(specs', ApplyAll(m, done, tick), cmd)
    ensures NoneRefused(specs, m, done, tick) && Refusal(specs', ApplyAll(m, done, tick), cmd) == None ==> NoneRefused(specs, m, done + [cmd], tick)
  {
    hide Refusal, MayEnd, SameFlags, ApplyAll;
    assert all[..|done|] == done && all[|done|] == cmd;
    RefusalKept(specs, specs', ApplyAll(m, done, tick), cmd);
    EndsFade(specs, specs', ApplyAll(m, done, tick), cmd);
    var more := done + [cmd];
    forall k | 0 <= k < |more|
      ensures more[..k] == done[..k]
    {
    }
    assert done[..|done|] == done;
  }

  /** What is stored now and what was dropped is what was stored at first and what was given since. */
  ghost predicate Balanced(stored: multiset<Payload>, drops: seq<Payload>, stored0: multiset<Payload>, given: multiset<Payload>) {
    stored + multiset(drops) == stored0 + given
  }

  lemma BalanceStep(stored: multiset<Payload>, drops: seq<Payload>, stored0: multiset<Payload>, given: multiset<Payload>,
                    after: multiset<Payload>, dropped: seq<Payload>, more: multiset<Payload>)
    requires Balanced(stored, drops, stored0, given) && after + multiset(dropped) == stored + more
    ensures Balanced(after, drops + dropped, stored0, given + more)
  {
    assert multiset(drops + dropped) == multiset(drops) + multiset(dropped);
    assert after + multiset(drops + dropped) == (after + multiset(dropped)) + multiset(drops);
    assert (stored + more) + multiset(drops) == (stored + multiset(drops)) + more;
  }

  lemma NothingDone(m: D.EntityMap, tick: Tick, stored: multiset<Payload>)
    ensures ApplyAll(m, [], tick) == m && Balanced(stored, [], stored, GivenBy([]))
    ensures forall specs :: AllClean(specs, m, [], tick) && NoneRefused(specs, m, [], tick)
  {
  }

  // ---------------------------------------------------------------------------------------------
  // Workers
  // ---------------------------------------------------------------------------------------------

  datatype WorkerSpec = WorkerSpec(thread: nat, handles: seq<Entity>, cmds: seq<Command>)

  function Created(cmds: seq<Command>): multiset<Entity> {
    if cmds == [] then multiset{}
    else Created(cmds[..|cmds| - 1]) + if cmds[|cmds| - 1].Create? then multiset{cmds[|cmds| - 1].e} else multiset{}
  }

  /** The handles a worker holds back, and those its recorded commands will bring to life. */
  function Pending(w: WorkerSpec): multiset<Entity> {
    multiset(w.handles) + Created(w.cmds)
  }

  function AllPending(workers: seq<WorkerSpec>): multiset<Entity> {
    if workers == [] then multiset{} else AllPending(workers[..|workers| - 1]) + Pending(workers[|workers| - 1])
  }

  /** All recorded commands in the order a sync point runs them. */
  function Recorded(workers: seq<WorkerSpec>): seq<Command> {
    if workers == [] then [] else Recorded(workers[..|workers| - 1]) + workers[|workers| - 1].cmds
  }

  function GivenBy(cmds: seq<Command>): multiset<Payload> {
    if cmds == [] then multiset{} else GivenBy(cmds[..|cmds| - 1]) + cmds[|cmds| - 1].Given()
  }

  lemma {:induction false} PendingUpdate(workers: seq<WorkerSpec>, k: nat, w: WorkerSpec, e: Entity)
    requires k < |workers|
    ensures AllPending(workers[k := w])[e] + Pending(workers[k])[e] == AllPending(workers)[e] + Pending(w)[e]
  {
    hide Pending;
    var last := |workers| - 1;
    if k == last {
      assert workers[k := w][..last] == workers[..last];
    } else {
      PendingUpdate(workers[..last], k, w, e);
      assert workers[k := w][..last] == workers[..last][k := w];
    }
  }

  lemma PendingRegistered(workers: seq<WorkerSpec>, thread: nat)
    ensures AllPending(workers + [WorkerSpec(thread, [], [])]) == AllPending(workers)
  {
    assert (workers + [WorkerSpec(thread, [], [])])[..|workers|] == workers;
  }

  /** A worker without handles or commands joins; whoever waits goes on waiting. */
  lemma WorkerJoins(workers: seq<WorkerSpec>, thread: nat, returned: set<Entity>, s: AllocatorState)
    requires WorkerOf(workers, thread) == |workers|
    requires DistinctThreads(workers) && CommandsOk(workers) && PendingOk(workers, s) && ReturnedOk(workers, returned, s)
    ensures var more := workers + [WorkerSpec(thread, [], [])];
      DistinctThreads(more) && CommandsOk(more) && PendingOk(more, s) && ReturnedOk(more, returned, s) && WorkerOf(more, thread) == |workers|
  {
    hide AllPending, Command.WellFormed, AllocatorState.Reserves, WorkerOf;
    PendingRegistered(workers, thread);
    var more := workers + [WorkerSpec(thread, [], [])];
    var k := WorkerOf(more, thread);
    assert more[|workers|].thread == thread;
  }

  lemma CreatedAppend(cmds: seq<Command>, cmd: Command)
    ensures Created(cmds + [cmd]) == Created(cmds) + if cmd.Create? then multiset{cmd.e} else multiset{}
  {
    assert (cmds + [cmd])[..|cmds|] == cmds;
  }

  lemma {:induction false} CreatedFront(cmds: seq<Command>, e: Entity)
    requires cmds != []
    ensures Created(cmds)[e] == Created(cmds[1..])[e] + if cmds[0].Create? && cmds[0].e == e then 1 else 0
  {
    if |cmds| > 1 {
      var front := cmds[..|cmds| - 1];
      CreatedFront(front, e);
      assert front[1..] == cmds[1..][..|cmds| - 2];
    }
  }

  lemma ApplyAllAppend(m: D.EntityMap, cmds: seq<Command>, cmd: Command, tick: Tick)
    ensures ApplyAll(m, cmds + [cmd], tick) == Apply(ApplyAll(m, cmds, tick), cmd, tick)
  {
    assert (cmds + [cmd])[..|cmds|] == cmds;
  }

  lemma GivenAppend(cmds: seq<Command>, cmd: Command)
    ensures GivenBy(cmds + [cmd]) == GivenBy(cmds) + cmd.Given()
    ensures BornByAll(cmds + [cmd]) == BornByAll(cmds) + BornBy(cmd)
    ensures RoomMadeByAll(cmds + [cmd]) == RoomMadeByAll(cmds) + RoomMadeBy(cmd)
  {
    assert (cmds + [cmd])[..|cmds|] == cmds;
  }

  /** Workers without commands have nothing recorded. */
  lemma {:induction false} NothingRecorded(workers: seq<WorkerSpec>)
    requires forall k :: 0 <= k < |workers| ==> workers[k].cmds == []
    ensures Recorded(workers) == []
  {
    if workers != [] {
      NothingRecorded(workers[..|workers| - 1]);
    }
  }

  /** Handles waiting for their entity are reserved, each for one place only. */
  ghost predicate PendingOk(workers: seq<WorkerSpec>, state: AllocatorState) {
    forall e :: e in AllPending(workers) ==> AllPending(workers)[e] == 1 && state.Reserves(e)
  }

  /** A handle given to a caller was issued and no worker holds it back any more. */
  ghost predicate ReturnedOk(workers: seq<WorkerSpec>, returned: set<Entity>, state: AllocatorState) {
    returned <= state.issued && forall k, e :: 0 <= k < |workers| && e in workers[k].handles ==> e !in returned
  }

  /** Threads and the handles they hold back are the same. */
  predicate SameHandles(workers: seq<WorkerSpec>, workers': seq<WorkerSpec>) {
    && |workers'| == |workers|
    && forall k :: 0 <= k < |workers| ==> workers'[k].thread == workers[k].thread && workers'[k].handles == workers[k].handles
  }

  /** A handle taken from the front of a queue is waiting nowhere else. */
  lemma FrontHandle(workers: seq<WorkerSpec>, k: nat, returned: set<Entity>, s: AllocatorState)
    requires k < |workers| && workers[k].handles != [] && PendingOk(workers, s) && ReturnedOk(workers, returned, s)
    ensures var e := workers[k].handles[0];
      && e !in returned && s.Reserves(e)
      && ReturnedOk(workers[k := workers[k].(handles := workers[k].handles[1..])], returned + {e}, s)
  {
    hide AllPending, Created;
    var e := workers[k].handles[0];
    assert workers[k].handles == [e] + workers[k].handles[1..];
    PendingMember(workers, k, e);
    forall i | 0 <= i < |workers|
      ensures e !in (if i == k then workers[k].handles[1..] else workers[i].handles)
    {
      PendingTwice(workers, i, k, e);
    }
  }

  lemma {:induction false} PendingMember(workers: seq<WorkerSpec>, k: nat, e: Entity)
    requires k < |workers|
    ensures AllPending(workers)[e] >= Pending(workers[k])[e]
  {
    hide Pending;
    if k < |workers| - 1 {
      PendingMember(workers[..|workers| - 1], k, e);
    }
  }

  lemma NothingPending(thread: nat)
    ensures Pending(WorkerSpec(thread, [], [])) == multiset{}
  {
  }

  lemma PendingTwice(workers: seq<WorkerSpec>, i: nat, k: nat, e: Entity)
    requires i < |workers| && k < |workers| && e in Pending(workers[k]) && AllPending(workers)[e] == 1
    ensures i != k ==> e !in workers[i].handles
    ensures i == k && workers[k].handles != [] && workers[k].handles[0] == e ==> e !in workers[k].handles[1..]
  {
    hide AllPending, Created;
    if i != k {
      var w := WorkerSpec(0, [], []);
      assert Pending(w) == multiset{} by { NothingPending(0); }
      PendingUpdate(workers, k, w, e);
      PendingMember(workers[k := w], i, e);
    } else if workers[k].handles != [] {
      assert workers[k].handles == [workers[k].handles[0]] + workers[k].handles[1..];
      PendingMember(workers, k, e);
    }
  }

  lemma ReturnedSurvive(workers: seq<WorkerSpec>, workers': seq<WorkerSpec>, returned: set<Entity>, s: AllocatorState, t: AllocatorState)
    requires ReturnedOk(workers, returned, s) && s.issued <= t.issued && |workers'| == |workers|
    requires forall k :: 0 <= k < |workers| ==> workers'[k].handles == workers[k].handles
    ensures ReturnedOk(workers', returned, t)
  {
  }

  lemma ReturnedFresh(workers: seq<WorkerSpec>, returned: set<Entity>, s: AllocatorState, t: AllocatorState, e: Entity)
    requires ReturnedOk(workers, returned, s) && PendingOk(workers, s) && s.issued <= t.issued && e !in s.issued && e in t.issued
    ensures e !in returned && ReturnedOk(workers, returned + {e}, t)
  {
    hide AllPending, Created;
    forall k | 0 <= k < |workers|
      ensures e !in workers[k].handles
    {
      PendingMember(workers, k, e);
    }
  }

  lemma ReturnedGrown(workers: seq<WorkerSpec>, k: nat, dst: seq<Entity>, returned: set<Entity>, s: AllocatorState, t: AllocatorState)
    requires k < |workers| && ReturnedOk(workers, returned, s) && SetsAside(s, t, workers[k].handles, dst)
    ensures ReturnedOk(workers[k := workers[k].(handles := dst)], returned, t)
  {
    forall e | e in dst
      ensures e !in returned
    {
      var i :| 0 <= i < |dst| && dst[i] == e;
      if i < |workers[k].handles| {
        assert workers[k].handles[i] == e;
      }
    }
  }

  /** Pending handles survive whatever begins no life of theirs. */
  lemma PendingSurvive(workers: seq<WorkerSpec>, s: AllocatorState, t: AllocatorState, taken: set<Entity>, begun: set<Entity>, gained: int)
    requires PendingOk(workers, s) && Passes(s, t, taken, begun, gained) && forall e :: e in begun ==> e !in AllPending(workers)
    ensures PendingOk(workers, t)
  {
  }

  /** Whoever waits goes on waiting while lives begin and end elsewhere. */
  lemma WorkersSurvive(workers: seq<WorkerSpec>, returned: set<Entity>, s: AllocatorState, t: AllocatorState, taken: set<Entity>, gained: int)
    requires PendingOk(workers, s) && ReturnedOk(workers, returned, s) && Passes(s, t, taken, {}, gained)
    ensures PendingOk(workers, t) && ReturnedOk(workers, returned, t)
  {
    hide PendingOk, ReturnedOk, AllocatorState.Reserves;
    PendingSurvive(workers, s, t, taken, {}, gained);
    ReturnedSurvive(workers, workers, returned, s, t);
  }

  /** A spawn in between disturbs nobody who waits, and its handle is new. */
  lemma WorkersSurviveSpawn(workers: seq<WorkerSpec>, returned: set<Entity>, s: AllocatorState, t: AllocatorState, born: Option<Entity>)
    requires PendingOk(workers, s) && ReturnedOk(workers, returned, s) && TriesToSpawn(s, t, born)
    ensures PendingOk(workers, t) && ReturnedOk(workers, returned + BornOf(born), t)
    ensures born.Some? ==> born.value !in returned && born.value !in s.issued
  {
    hide AllPending, Passes;
    match born {
      case Some(e) =>
        PassesIssued(s, t, {e}, {e}, -1);
        assert forall f :: f in AllPending(workers) ==> s.Reserves(f);
        PendingSurvive(workers, s, t, {e}, {e}, -1);
        ReturnedFresh(workers, returned, s, t, e);
      case None =>
        assert returned + BornOf(born) == returned;
        if s.Room() != 0 {
          var e :| Passes(s, t, {e}, {}, -1);
          WorkersSurvive(workers, returned, s, t, {e}, -1);
        }
    }
  }

  lemma PassesIssued(s: AllocatorState, t: AllocatorState, taken: set<Entity>, begun: set<Entity>, gained: int)
    requires Passes(s, t, taken, begun, gained)
    ensures t.issued == s.issued + taken && taken !! s.issued && t.lived == s.lived + begun && begun !! s.lived
  {
  }

  /** A worker that holds back the same handles, under whatever commands, leaves everything pending as it was. */
  lemma PendingSame(workers: seq<WorkerSpec>, k: nat, w: WorkerSpec, s: AllocatorState)
    requires k < |workers| && PendingOk(workers, s) && Pending(w) == Pending(workers[k])
    ensures PendingOk(workers[k := w], s)
  {
    hide AllPending, Pending;
    forall e
      ensures AllPending(workers[k := w])[e] == AllPending(workers)[e]
    {
      PendingUpdate(workers, k, w, e);
    }
  }

  /** The handles at the back of the queue are new, different and reserved, and disturb no other reservation. */
  lemma SetAsideParts(s: AllocatorState, t: AllocatorState, queue: seq<Entity>, dst: seq<Entity>, e: Entity)
    requires SetsAside(s, t, queue, dst)
    ensures dst == queue + dst[|queue|..] && Distinct(dst[|queue|..])
    ensures e in dst[|queue|..] ==> e !in s.issued && t.Reserves(e)
    ensures s.Reserves(e) ==> e !in dst[|queue|..] && t.Reserves(e)
  {
    hide Entity.Idx, Entity.Version;
    if e in dst[|queue|..] {
      var i :| 0 <= i < |dst| - |queue| && dst[|queue|..][i] == e;
      assert dst[|queue| + i] == e;
    }
  }

  lemma PendingGrown(workers: seq<WorkerSpec>, k: nat, dst: seq<Entity>, s: AllocatorState, t: AllocatorState)
    requires k < |workers| && PendingOk(workers, s) && SetsAside(s, t, workers[k].handles, dst)
    ensures PendingOk(workers[k := workers[k].(handles := dst)], t)
  {
    var fresh_ := dst[|workers[k].handles|..];
    hide AllPending, Created, SetsAside, AllocatorState.Reserves;
    var w := workers[k].(handles := dst);
    var grown := workers[k := w];
    forall e
      ensures e in AllPending(grown) ==> AllPending(grown)[e] == 1 && t.Reserves(e)
    {
      SetAsideParts(s, t, workers[k].handles, dst, e);
      PendingUpdate(workers, k, w, e);
      DistinctCount(fresh_, e);
      assert multiset(dst)[e] == multiset(workers[k].handles)[e] + multiset(fresh_)[e];
    }
  }

  /** The first handle of a worker moves from its queue into a recorded `Create`. */
  lemma HandleRecorded(w: WorkerSpec, t: BundleType, val: Bundle)
    requires w.handles != []
    ensures Pending(WorkerSpec(w.thread, w.handles[1..], w.cmds + [Create(w.handles[0], t, val)])) == Pending(w)
  {
    CreatedAppend(w.cmds, Create(w.handles[0], t, val));
    assert w.handles == [w.handles[0]] + w.handles[1..];
  }

  lemma CommandRecorded(w: WorkerSpec, cmd: Command)
    requires !cmd.Create?
    ensures Pending(w.(cmds := w.cmds + [cmd])) == Pending(w)
  {
    CreatedAppend(w.cmds, cmd);
  }

  /** Taking the front command off leaves everything else pending; its own handle, if any, no longer is. */
  lemma PendingPopped(workers: seq<WorkerSpec>, k: nat, s: AllocatorState)
    requires k < |workers| && workers[k].cmds != [] && PendingOk(workers, s)
    ensures var cmd := workers[k].cmds[0]; var popped := workers[k := workers[k].(cmds := workers[k].cmds[1..])];
            PendingOk(popped, s) && (cmd.Create? ==> s.Reserves(cmd.e) && cmd.e !in AllPending(popped))
  {
    hide AllPending, Created;
    var cmd := workers[k].cmds[0];
    var w := workers[k].(cmds := workers[k].cmds[1..]);
    var popped := workers[k := w];
    forall e
      ensures e in AllPending(popped) ==> AllPending(popped)[e] == 1 && s.Reserves(e) && !(cmd.Create? && cmd.e == e)
    {
      PendingUpdate(workers, k, w, e);
      CreatedFront(workers[k].cmds, e);
      assert AllPending(popped)[e] + (if cmd.Create? && cmd.e == e then 1 else 0) == AllPending(workers)[e];
    }
    if cmd.Create? {
      PendingUpdate(workers, k, w, cmd.e);
      CreatedFront(workers[k].cmds, cmd.e);
      assert cmd.e in AllPending(workers);
    }
  }

  /** With nothing left before worker `k`, its front command is the next one to run. */
  lemma {:induction false} RecordedFront(workers: seq<WorkerSpec>, k: nat)
    requires k < |workers| && workers[k].cmds != [] && forall i :: 0 <= i < k ==> workers[i].cmds == []
    ensures Recorded(workers) == [workers[k].cmds[0]] + Recorded(workers[k := workers[k].(cmds := workers[k].cmds[1..])])
  {
    var last := |workers| - 1;
    var w := workers[k].(cmds := workers[k].cmds[1..]);
    if k == last {
      NothingRecorded(workers[..last]);
      assert workers[k := w][..last] == workers[..last];
    } else {
      RecordedFront(workers[..last], k);
      assert workers[k := w][..last] == workers[..last][k := w];
    }
  }

  lemma NothingLeft(workers: seq<WorkerSpec>, workers': seq<WorkerSpec>)
    requires SameHandles(workers, workers') && forall k :: 0 <= k < |workers'| ==> workers'[k].cmds == []
    ensures workers' == Emptied(workers)
  {
  }

  /** Where a thread's commands go; a thread that was never seen registers behind the others. */
  function WorkerOf(workers: seq<WorkerSpec>, thread: nat): (k: nat)
    ensures k <= |workers| && (k < |workers| ==> workers[k].thread == thread)
    ensures forall i :: 0 <= i < k ==> workers[i].thread != thread
  {
    if workers == [] then 0
    else if workers[0].thread == thread then 0
    else 1 + WorkerOf(workers[1..], thread)
  }

  function Enlisted(workers: seq<WorkerSpec>, thread: nat): seq<WorkerSpec> {
    if WorkerOf(workers, thread) < |workers| then workers else workers + [WorkerSpec(thread, [], [])]
  }

  /** One more command at the back of its thread's queue, and nothing else changed. */
  function WithCommand(workers: seq<WorkerSpec>, thread: nat, cmd: Command): seq<WorkerSpec> {
    var ws := Enlisted(workers, thread);
    var k := WorkerOf(workers, thread);
    ws[k := ws[k].(cmds := ws[k].cmds + [cmd])]
  }

  ghost predicate DistinctThreads(workers: seq<WorkerSpec>) {
    forall i, j :: 0 <= i < j < |workers| ==> workers[i].thread != workers[j].thread
  }

  ghost predicate CommandsOk(workers: seq<WorkerSpec>) {
    forall k, i :: 0 <= k < |workers| && 0 <= i < |workers[k].cmds| ==> workers[k].cmds[i].WellFormed()
  }

  /** One more well-formed command in a queue keeps threads apart and commands well formed. */
  lemma StillInOrder(workers: seq<WorkerSpec>, k: nat, cmd: Command)
    requires k < |workers| && DistinctThreads(workers) && CommandsOk(workers) && cmd.WellFormed()
    ensures var recorded := workers[k := workers[k].(cmds := workers[k].cmds + [cmd])]; DistinctThreads(recorded) && CommandsOk(recorded)
  {
    hide Command.WellFormed;
  }

  // ---------------------------------------------------------------------------------------------
  // What a caller sees
  // ---------------------------------------------------------------------------------------------

  /** The world and its workers as a value. */
  datatype Snapshot = Snapshot(
    entities: D.EntityMap, stored: multiset<Payload>, specs: seq<ArchetypeSpec>, allocator: AllocatorState, tick: Tick,
    workers: seq<WorkerSpec>, inParallel: bool, returned: set<Entity>)

  /** A command applied at once: carried out unless there is a reason to refuse it, with every value accounted for. */
  ghost predicate Applied(s: Snapshot, cmd: Command, dropped: multiset<Payload>, t: Snapshot) {
    var done := Refusal(s.specs, s.entities, cmd) == None;
    && t == s.(entities := if done then Apply(s.entities, cmd, s.tick) else s.entities,
               stored := t.stored, specs := t.specs, allocator := t.allocator)
    && t.stored + dropped == s.stored + cmd.Given()
    && SameFlags(s.specs, t.specs)
    && Passes(s.allocator, t.allocator, {}, if done then BornBy(cmd) else {}, if done then RoomMadeBy(cmd) else 0)
  }

  /** Everything recorded was carried out, worker by worker and first in first out. */
  ghost predicate Flushed(s: Snapshot, dropped: multiset<Payload>, t: Snapshot) {
    var cmds := Recorded(s.workers);
    && NoneRefused(s.specs, s.entities, cmds, s.tick)
    && t == s.(entities := ApplyAll(s.entities, cmds, s.tick), workers := Emptied(s.workers),
               stored := t.stored, specs := t.specs, allocator := t.allocator)
    && t.stored + dropped == s.stored + GivenBy(cmds)
    && SameFlags(s.specs, t.specs)
    && Passes(s.allocator, t.allocator, {}, BornByAll(cmds), RoomMadeByAll(cmds))
  }

  /** The front command of worker `k` was taken off its queue and carried out. */
  ghost predicate Ran(s: Snapshot, k: nat, cmd: Command, drops: seq<Payload>, t: Snapshot) {
    && k < |s.workers| && s.workers[k].cmds != [] && cmd == s.workers[k].cmds[0]
    && Refusal(s.specs, s.entities, cmd) == None
    && Applied(s.(workers := s.workers[k := s.workers[k].(cmds := s.workers[k].cmds[1..])]), cmd, multiset(drops), t)
  }

  /** A flush that started in `s` has carried out `done` and left `t`. */
  ghost predicate Flushing(s: Snapshot, done: seq<Command>, drops: seq<Payload>, t: Snapshot) {
    && done + Recorded(t.workers) == Recorded(s.workers) && SameHandles(s.workers, t.workers)
    && NoneRefused(s.specs, s.entities, done, s.tick)
    && t == s.(entities := ApplyAll(s.entities, done, s.tick), workers := t.workers,
               stored := t.stored, specs := t.specs, allocator := t.allocator)
    && Balanced(t.stored, drops, s.stored, GivenBy(done))
    && SameFlags(s.specs, t.specs)
    && Passes(s.allocator, t.allocator, {}, BornByAll(done), RoomMadeByAll(done))
  }

  lemma RanPops(s: Snapshot, k: nat, cmd: Command, drops: seq<Payload>, t: Snapshot)
    requires Ran(s, k, cmd, drops, t)
    ensures k < |s.workers| && s.workers[k].cmds != [] && t.workers == s.workers[k := s.workers[k].(cmds := s.workers[k].cmds[1..])]
  {
  }

  lemma FlushStarts(s: Snapshot)
    ensures Flushing(s, [], [], s)
  {
    PassesTrivially(s.allocator);
    SameFlagsTrivially(s.specs);
    NothingDone(s.entities, s.tick, s.stored);
  }

  /** In a history of clean commands the next one is clean. */
  lemma NextIsClean(s: Snapshot, done: seq<Command>, drops: seq<Payload>, t: Snapshot, k: nat)
    requires Flushing(s, done, drops, t) && AllClean(s.specs, s.entities, Recorded(s.workers), s.tick)
    requires k < |t.workers| && t.workers[k].cmds != [] && forall i :: 0 <= i < k ==> t.workers[i].cmds == []
    ensures Clean(t.specs, t.entities, t.workers[k].cmds[0])
  {
    hide SameFlags, Passes, Balanced, AllClean, NoneRefused, Clean, GivenBy, RoomMadeByAll, BornByAll;
    RecordedFront(t.workers, k);
    CleanNext(s.specs, t.specs, s.entities, Recorded(s.workers), done, t.workers[k].cmds[0], Recorded(t.workers)[1..], s.tick);
  }

  lemma FlushGoesOn(s: Snapshot, done: seq<Command>, drops: seq<Payload>, t: Snapshot, k: nat, cmd: Command, dropped: seq<Payload>, u: Snapshot)
    requires Flushing(s, done, drops, t) && Ran(t, k, cmd, dropped, u) && forall i :: 0 <= i < k ==> t.workers[i].cmds == []
    ensures Flushing(s, done + [cmd], drops + dropped, u)
  {
    hide SameFlags, Passes, Balanced, AllClean, NoneRefused, Refusal, Recorded, GivenBy, RoomMadeByAll, BornByAll, RoomMadeBy, BornBy, ApplyAll, Apply, Command.Given;
    RecordedFront(t.workers, k);
    var rest := Recorded(u.workers);
    CleanNext(s.specs, t.specs, s.entities, Recorded(s.workers), done, cmd, rest, s.tick);
    BalanceStep(t.stored, drops, s.stored, GivenBy(done), u.stored, dropped, cmd.Given()) by { assert Balanced(t.stored, drops, s.stored, GivenBy(done)); }
    ApplyAllAppend(s.entities, done, cmd, s.tick);
    GivenAppend(done, cmd);
    SameFlagsTwice(s.specs, t.specs, u.specs);
    PassesTwice(s.allocator, t.allocator, u.allocator, {}, BornByAll(done), RoomMadeByAll(done), {}, BornBy(cmd), RoomMadeBy(cmd));
    var nobody: set<Entity> := {};
    assert nobody + nobody == nobody;
    assert (done + [cmd]) + rest == done + ([cmd] + rest);
  }

  /** Once every queue is empty the flush is complete. */
  lemma FlushEnds(s: Snapshot, done: seq<Command>, drops: seq<Payload>, t: Snapshot)
    requires Flushing(s, done, drops, t) && forall i :: 0 <= i < |t.workers| ==> t.workers[i].cmds == []
    ensures Recorded(t.workers) == [] && Flushed(s, multiset(drops), t)
  {
    hide SameFlags, Passes, NoneRefused, Recorded, GivenBy, RoomMadeByAll, BornByAll, ApplyAll;
    NothingRecorded(t.workers);
    assert done == Recorded(s.workers);
    NothingLeft(s.workers, t.workers);
  }

  function Emptied(workers: seq<WorkerSpec>): (r: seq<WorkerSpec>)
    ensures |r| == |workers| && forall k :: 0 <= k < |r| ==> r[k] == workers[k].(cmds := [])
  {
    seq(|workers|, k requires 0 <= k < |workers| => workers[k].(cmds := []))
  }

  /** Why a spawn would be refused, if it would. */
  ghost function SpawnRefusal(s: Snapshot, t: BundleType): Option<WorldError> {
    if s.allocator.Room() == 0 then Some(AllocatorFailure(EntityAmountOverflow))
    else if IsSingleton(s.specs, t.ComponentSet()) && D.SomeoneHas(s.entities, t.ComponentSet()) then Some(SingletonAlreadyExists)
    else None
  }

  ghost function SingletonRefusal(s: Snapshot, t: BundleType): Option<WorldError> {
    if Known(s.specs, t.ComponentSet()) && !IsSingleton(s.specs, t.ComponentSet()) then Some(ArchetypeIsNotSingleton)
    else if D.SomeoneHas(s.entities, t.ComponentSet()) then Some(SingletonAlreadyExists)
    else if s.allocator.Room() == 0 then Some(AllocatorFailure(EntityAmountOverflow))
    else None
  }

  ghost function RegistrationRefusal(specs: seq<ArchetypeSpec>, t: BundleType, chunkSize: nat, allow: bool): Option<WorldError> {
    if !ValidChunkSize(chunkSize) then Some(InvalidChunkSize)
    else if IsSingleton(specs, t.ComponentSet()) then Some(ArchetypeIsSingleton)
    else if !Configured(specs, t.ComponentSet(), chunkSize, allow) then Some(AlreadyCreatedDifferently)
    else None
  }

  /** Refused for a reason, or done. */
  predicate Answers<T>(r: Outcome<T>, refusal: Option<WorldError>) {
    match refusal
    case Some(error) => r == Failed(error)
    case None => r.Done?
  }

  function GivenHandle(r: Outcome<Entity>): Option<Entity> {
    if r.Done? then Some(r.value) else None
  }

  /** An entity came into being under a handle never handed out before, or nothing did. */
  ghost predicate Spawned(s: Snapshot, val: Bundle, born: Option<Entity>, dropped: multiset<Payload>, t: Snapshot) {
    && (born.Some? ==> born.value !in s.allocator.issued && born.value !in s.returned && born.value !in s.entities)
    && t == s.(entities := if born.Some? then s.entities[born.value := Overlay(map[], val, s.tick)] else s.entities,
               returned := s.returned + BornOf(born), stored := t.stored, specs := t.specs, allocator := t.allocator)
    && t.stored + dropped == s.stored + multiset(Payloads(val))
  }

  /** One write through a query, which is never deferred: it reaches the component of an entity that has it. */
  ghost predicate Wrote(s: Snapshot, e: Entity, c: Component, edit: RowEdit, reached: bool, dropped: multiset<Payload>, t: Snapshot) {
    && (reached <==> e in s.entities && c in s.entities[e])
    && t == s.(entities := if reached then s.entities[e := EditedCells(s.entities[e], c, edit, s.tick)] else s.entities, stored := t.stored)
    && t.stored + dropped == s.stored + multiset(edit.Gives(c))
  }

  /** There is a handle to give: the worker holds one back, or enough can be set aside for it. */
  predicate CanDefer(held: seq<Entity>, s: AllocatorState) {
    held != [] || s.Room() >= PRE_ALLOCATED
  }

  /**
    A spawn recorded for later: the worker of the thread gives away the oldest handle it holds back,
    after setting some aside if it holds none. When the indices run out nothing is recorded, and
    the handles that were left stay with the worker.
   */
  ghost predicate Deferred(s: Snapshot, thread: nat, bt: BundleType, val: Bundle, born: Option<Entity>, t: Snapshot) {
    var ws, k := Enlisted(s.workers, thread), WorkerOf(s.workers, thread);
    && k < |t.workers|
    && var held, left := ws[k].handles, t.workers[k].handles;
    match born
    case Some(e) =>
      && CanDefer(held, s.allocator) && e !in s.returned && e !in s.entities
      && |left| + 1 == (if held != [] then |held| else PRE_ALLOCATED)
      && SetsAside(s.allocator, t.allocator, held, [e] + left)
      && t == s.(allocator := t.allocator, returned := s.returned + {e},
                 workers := ws[k := WorkerSpec(thread, left, ws[k].cmds + [Create(e, bt, val)])])
    case None =>
      && !CanDefer(held, s.allocator) && |left| == s.allocator.Room()
      && SetsAside(s.allocator, t.allocator, held, left)
      && t == s.(allocator := t.allocator, workers := ws[k := ws[k].(handles := left)])
  }

  lemma NothingDeferred(s: Snapshot, thread: nat, bt: BundleType, val: Bundle, ws: seq<WorkerSpec>, k: nat, dst: seq<Entity>, t: Snapshot)
    requires ws == Enlisted(s.workers, thread) && k == WorkerOf(s.workers, thread) < |ws| && !CanDefer(ws[k].handles, s.allocator)
    requires SetsAside(s.allocator, t.allocator, ws[k].handles, dst) && |dst| == s.allocator.Room()
    requires t == s.(allocator := t.allocator, workers := ws[k := ws[k].(handles := dst)])
    ensures Deferred(s, thread, bt, val, None, t)
  {
    hide SetsAside, WorkerOf, Enlisted;
  }

  lemma SpawnDeferred(s: Snapshot, thread: nat, bt: BundleType, val: Bundle, ws: seq<WorkerSpec>, k: nat, dst: seq<Entity>, t: Snapshot)
    requires ws == Enlisted(s.workers, thread) && k == WorkerOf(s.workers, thread) < |ws| && ws[k].thread == thread
    requires CanDefer(ws[k].handles, s.allocator) && dst != [] && dst[0] !in s.returned && dst[0] !in s.entities
    requires SetsAside(s.allocator, t.allocator, ws[k].handles, dst)
    requires |dst| == if ws[k].handles != [] then |ws[k].handles| else PRE_ALLOCATED
    requires t == s.(allocator := t.allocator, returned := s.returned + {dst[0]},
                     workers := ws[k := WorkerSpec(thread, dst[1..], ws[k].cmds + [Create(dst[0], bt, val)])])
    ensures Deferred(s, thread, bt, val, Some(dst[0]), t)
  {
    hide SetsAside, WorkerOf, Enlisted;
    assert [dst[0]] + dst[1..] == dst;
  }

  // ---------------------------------------------------------------------------------------------
  // The world behind a command buffer
  // ---------------------------------------------------------------------------------------------

  class Cmd {
    const world: World
    var workers: seq<WorkerSpec>
    var inParallel: bool
    ghost var returned: set<Entity>  // every handle `TryCreate` gave to a caller

    constructor (w: World)
      requires w.Valid()
      ensures Valid() && world == w && workers == [] && !inParallel && returned == {}
    {
      world, workers, inParallel, returned := w, [], false, {};
      new;
      assert fresh(this);
    }

    ghost predicate Valid()
      reads this, world, world.allocator, world.Repr
      ensures Valid() ==> world.Valid()
    {
      && world.Valid() && this !in world.Repr
      && DistinctThreads(workers) && CommandsOk(workers) && PendingOk(workers, world.allocator.State())
      && ReturnedOk(workers, returned, world.allocator.State())
    }

    /** Everything a caller can tell about the world and what waits for it. */
    ghost function Seen(): Snapshot
      requires Valid()
      reads this, world, world.allocator, world.Repr
    {
      Snapshot(world.Entities(), StoredAll(world.Storages()), world.specs, world.allocator.State(), world.tick, workers, inParallel, returned)
    }

    /** A handle that waits for its command does not exist yet. */
    lemma PendingDoNotExist()
      requires Valid()
      ensures forall e :: e in AllPending(workers) ==> e !in world.Entities()
    {
      hide World.Valid, World.Housed, World.Entities, Exists, AllocatorState.Reserves;
      forall e | e in AllPending(workers)
        ensures e !in world.Entities()
      {
        ReservedIsNotLive(world.allocator.State(), e);
        world.HomeOfEntity(e);
      }
    }

    /** The worker of the calling thread. */
    method WarmUp(thread: nat) returns (k: nat)
      requires Valid()
      modifies this`workers
      ensures Valid() && workers == Enlisted(old(workers), thread) && k == WorkerOf(old(workers), thread) < |workers| && workers[k].thread == thread
      ensures Seen() == old(Seen()).(workers := workers)
    {
      hide World.Valid, World.Housed, World.HeapOk, World.Entities, World.Storages, StoredAll, AllocatorState.Reserves, AllPending, Pending, PendingOk, ReturnedOk, CommandsOk, DistinctThreads;
      k := WorkerOf(workers, thread);
      if k == |workers| {
        WorkerJoins(workers, thread, returned, world.allocator.State());
        workers := workers + [WorkerSpec(thread, [], [])];
      }
    }

    /** Records a command that brings no new handle to life. */
    method Record(thread: nat, cmd: Command)
      requires Valid() && cmd.WellFormed() && !cmd.Create?
      modifies this`workers
      ensures Valid() && workers == WithCommand(old(workers), thread, cmd)
    {
      hide World.Valid, World.Housed, World.HeapOk, World.Entities, World.Storages, AllocatorState.Reserves, AllPending, Pending, PendingOk, ReturnedOk, DistinctThreads, CommandsOk, Command.WellFormed, StoredAll;
      var k := WarmUp(thread);
      StillInOrder(workers, k, cmd);
      ReturnedSurvive(workers, workers[k := workers[k].(cmds := workers[k].cmds + [cmd])], returned, world.allocator.State(), world.allocator.State());
      CommandRecorded(workers[k], cmd);
      PendingSame(workers, k, workers[k].(cmds := workers[k].cmds + [cmd]), world.allocator.State());
      workers := workers[k := workers[k].(cmds := workers[k].cmds + [cmd])];
    }

    /** Applies one command to the world; a refusal or a layout that cannot be built ends the run. */
    method RunCommand(cmd: Command) returns (ok: bool, drops: seq<Payload>)
      requires world.Valid() && cmd.WellFormed() && (cmd.Create? ==> world.allocator.State().Reserves(cmd.e))
      modifies world`components, world`specs, world`version, world`setIds, world`typeIds, world`addEdges, world`removeEdges, world`Repr, world.Repr, world.allocator
      ensures fresh(world.Repr - old(world.Repr))
      ensures Clean(old(world.specs), old(world.Entities()), cmd) ==> ok
      ensures ok ==>
        && world.Valid() && SameFlags(old(world.specs), world.specs) && Refusal(old(world.specs), old(world.Entities()), cmd) == None
        && world.Entities() == Apply(old(world.Entities()), cmd, world.tick)
        && StoredAll(world.Storages()) + multiset(drops) == old(StoredAll(world.Storages())) + cmd.Given()
        && Passes(old(world.allocator.State()), world.allocator.State(), {}, BornBy(cmd), RoomMadeBy(cmd))
    {
      hide World.Valid, World.Housed, World.HeapOk, World.Entities, World.Storages, AllocatorState.Reserves, AllPending, Pending, PendingOk, ReturnedOk, StoredAll, Payloads, Overlay;
      hide Locked, IsSingleton, Placeable, PlaceableInAnyOrder, DistinctFields, ComponentsIn, BundleType.ComponentSet, D.SomeoneHas, Passes;
      if (cmd.Add? || cmd.Remove?) && cmd.e in old(world.Entities()) {
        Objections(world.specs, world.Entities()[cmd.e].Keys, cmd.t, cmd.Add?);
      }
      match cmd {
        case Create(e, t, val) =>
          var r;
          r, drops := world.CreateComponentsFor(e, t, val);
          ok := r.Done?;
        case Add(e, t, val) =>
          var r;
          r, drops := world.TryAddComponent(e, t, val);
          ok := r.Done?;
        case Merge(e, t, val) =>
          var r;
          r, drops := world.TryMergeComponent(e, t, val);
          ok := r.Done?;
        case Remove(e, t) =>
          var r := world.TryRemoveComponent(e, t);
          ok := r.Done?;
          drops := if ok then Returned(t, r.value) else [];
        case Destroy(e) =>
          var r;
          r, drops := world.TryDestroy(e);
          ok := r.Done?;
          SameFlagsTrivially(world.specs);
      }
    }

    /** Takes the front command of worker `k` off its queue and runs it. */
    method RunNext(k: nat) returns (ok: bool, ghost cmd: Command, drops: seq<Payload>)
      requires Valid() && k < |workers| && workers[k].cmds != []
      modifies this`workers, world`components, world`specs, world`version, world`setIds, world`typeIds, world`addEdges, world`removeEdges, world`Repr, world.Repr, world.allocator
      ensures fresh(world.Repr - old(world.Repr))
      ensures cmd == old(workers)[k].cmds[0] && (Clean(old(world.specs), old(world.Entities()), cmd) ==> ok)
      ensures ok ==> Valid() && Ran(old(Seen()), k, cmd, drops, Seen())
    {
      hide World.Valid, World.Housed, World.HeapOk, World.Entities, World.Storages, AllocatorState.Reserves, AllPending, Pending, PendingOk, ReturnedOk, StoredAll, Payloads, Overlay;
      hide Locked, IsSingleton, Placeable, PlaceableInAnyOrder, DistinctFields, ComponentsIn, BundleType.ComponentSet, D.SomeoneHas, Passes;
      hide Command.WellFormed, Apply, Clean, Refusal, MayEnd, SameFlags, Command.Given, RoomMadeBy;
      var front := workers[k].cmds[0];
      cmd := front;
      ghost var state := world.allocator.State();
      PendingPopped(workers, k, state);
      workers := workers[k := workers[k].(cmds := workers[k].cmds[1..])];
      ok, drops := RunCommand(front);
      if ok {
        PendingSurvive(workers, state, world.allocator.State(), {}, BornBy(cmd), RoomMadeBy(cmd));
        PassesIssued(state, world.allocator.State(), {}, BornBy(cmd), RoomMadeBy(cmd));
        ReturnedSurvive(old(workers), workers, returned, state, world.allocator.State());
      }
    }

    /**
      `sync_point`: runs everything recorded, worker by worker, first in first out. The world ends
      up as the fold of the commands over the map, and a run in which every command is clean never
      ends in a panic.
     */
    method FlushCmd() returns (ok: bool, drops: seq<Payload>)
      requires Valid()
      modifies this`workers, world`components, world`specs, world`version, world`setIds, world`typeIds, world`addEdges, world`removeEdges, world`Repr, world.Repr, world.allocator
      ensures fresh(world.Repr - old(world.Repr))
      ensures AllClean(old(world.specs), old(world.Entities()), Recorded(old(workers)), world.tick) ==> ok
      ensures ok ==> Valid() && Recorded(workers) == [] && Flushed(old(Seen()), multiset(drops), Seen())
    {
      hide Valid, Seen, AllClean, Clean, Recorded, Flushing, Flushed, Ran;
      hide World.Valid, World.Housed, World.HeapOk, World.Entities, World.Storages, AllocatorState.Reserves, AllPending, Pending, PendingOk, ReturnedOk, StoredAll, Payloads, Overlay;
      hide Locked, IsSingleton, Placeable, PlaceableInAnyOrder, DistinctFields, ComponentsIn, BundleType.ComponentSet, D.SomeoneHas, Passes;
      ghost var s, done: seq<Command> := Seen(), [];
      assert AllClean(old(world.specs), old(world.Entities()), Recorded(old(workers)), world.tick) <==> AllClean(s.specs, s.entities, Recorded(s.workers), s.tick) by { SeenParts(); }
      drops := [];
      FlushStarts(s);
      var k := 0;
      SeenParts();
      while k < |workers|
        invariant Valid() && k <= |workers| == |old(workers)| && fresh(world.Repr - old(world.Repr))
        invariant forall i :: 0 <= i < k ==> workers[i].cmds == []
        invariant Flushing(s, done, drops, Seen())
      {
        while workers[k].cmds != []
          invariant Valid() && k < |workers| == |old(workers)| && fresh(world.Repr - old(world.Repr))
          invariant forall i :: 0 <= i < k ==> workers[i].cmds == []
          invariant Flushing(s, done, drops, Seen())
          decreases |workers[k].cmds|
        {
          ghost var t := Seen();
          SeenParts();
          if AllClean(s.specs, s.entities, Recorded(s.workers), s.tick) {
            NextIsClean(s, done, drops, t, k);
          }
          ghost var cmd;
          var dropped;
          ok, cmd, dropped := RunNext(k);
          if !ok {
            return;
          }
          FlushGoesOn(s, done, drops, t, k, cmd, dropped, Seen());
          RanPops(t, k, cmd, dropped, Seen());
          SeenParts();
          drops, done := drops + dropped, done + [cmd];
        }
        k := k + 1;
      }
      SeenParts();
      FlushEnds(s, done, drops, Seen());
      ok := true;
    }

    lemma FlagSeen()
      requires Valid()
      ensures Seen().inParallel == inParallel && Seen().tick == world.tick
    {
    }

    lemma SeenParts()
      requires Valid()
      ensures Seen().returned == returned && Seen().allocator == world.allocator.State() && Seen().workers == workers && Seen().specs == world.specs && Seen().entities == world.Entities() && Seen().tick == world.tick
    {
    }

    /** Nothing a caller can see of the world changed but the handles set aside. */
    twostate predicate WorldUntouched()
      reads world, world.allocator, world.Repr
    {
      && old(world.Housed()) && world.Housed()
      && world.Entities() == old(world.Entities()) && world.Storages() == old(world.Storages()) && world.specs == old(world.specs)
    }

    /** Makes sure worker `k` holds a handle back. With too few indices left it gets what there is, and the call fails. */
    method HoldHandles(k: nat) returns (ok: bool)
      requires Valid() && k < |workers|
      modifies this`workers, world.allocator
      ensures Valid() && Seen() == old(Seen()).(workers := workers, allocator := world.allocator.State()) && k < |workers|
      ensures workers == old(workers)[k := old(workers)[k].(handles := workers[k].handles)]
      ensures SetsAside(old(world.allocator.State()), world.allocator.State(), old(workers)[k].handles, workers[k].handles)
      ensures ok <==> CanDefer(old(workers)[k].handles, old(world.allocator.State()))
      ensures ok ==> workers[k].handles != [] && |workers[k].handles| == if old(workers)[k].handles != [] then |old(workers)[k].handles| else PRE_ALLOCATED
      ensures !ok ==> |workers[k].handles| == old(world.allocator.State()).Room()
    {
      hide World.Valid, World.Housed, World.HeapOk, World.Entities, World.Storages, AllocatorState.Reserves, AllPending, Pending, PendingOk, ReturnedOk, StoredAll, Payloads, Overlay;
      hide Locked, IsSingleton, Placeable, PlaceableInAnyOrder, DistinctFields, ComponentsIn, BundleType.ComponentSet, D.SomeoneHas, Passes;
      hide Command.WellFormed;
      NothingSetAside(world.allocator.State(), workers[k].handles);
      while workers[k].handles == []
        invariant Valid() && k < |workers| && WorldUntouched()
        invariant workers[k].handles == [] ==> workers == old(workers) && world.allocator.State() == old(world.allocator.State())
        invariant workers == old(workers)[k := old(workers)[k].(handles := workers[k].handles)]
        invariant SetsAside(old(world.allocator.State()), world.allocator.State(), old(workers)[k].handles, workers[k].handles)
        invariant workers[k].handles != [] ==>
          && CanDefer(old(workers)[k].handles, old(world.allocator.State()))
          && |workers[k].handles| == if old(workers)[k].handles != [] then |old(workers)[k].handles| else PRE_ALLOCATED
        decreases workers[k].handles == []
      {
        ghost var state := world.allocator.State();
        var enough, dst := world.TryPreAllocateEntities(PRE_ALLOCATED, workers[k].handles);
        PendingGrown(workers, k, dst, state, world.allocator.State());
        ReturnedGrown(workers, k, dst, returned, state, world.allocator.State());
        workers := workers[k := workers[k].(handles := dst)];
        if !enough {
          return false;
        }
      }
      ok := true;
    }

    /** Takes the oldest handle worker `k` holds back and records the spawn under it. */
    method RecordCreate(k: nat, t: BundleType, val: Bundle) returns (e: Entity)
      requires Valid() && k < |workers| && workers[k].handles != [] && ValueOf(t, val)
      modifies this`workers, this`returned
      ensures Valid() && e == old(workers)[k].handles[0] && e !in old(returned) && returned == old(returned) + {e} && e !in world.Entities()
      ensures workers == old(workers)[k := WorkerSpec(old(workers)[k].thread, old(workers)[k].handles[1..], old(workers)[k].cmds + [Create(e, t, val)])]
      ensures Seen() == old(Seen()).(workers := workers, returned := returned)
    {
      hide World.Valid, World.Housed, World.HeapOk, World.Entities, World.Storages, AllocatorState.Reserves, AllPending, Pending, PendingOk, ReturnedOk, StoredAll, Payloads, Overlay;
      hide Locked, IsSingleton, Placeable, PlaceableInAnyOrder, DistinctFields, ComponentsIn, BundleType.ComponentSet, D.SomeoneHas;
      e := workers[k].handles[0];
      ghost var state := world.allocator.State();
      FrontHandle(workers, k, returned, state);
      HandleRecorded(workers[k], t, val);
      var w := WorkerSpec(workers[k].thread, workers[k].handles[1..], workers[k].cmds + [Create(e, t, val)]);
      PendingSame(workers, k, w, state);
      ReturnedSurvive(workers[k := workers[k].(handles := workers[k].handles[1..])], workers[k := w], returned + {e}, state, state);
      ReservedIsNotLive(state, e);
      world.HomeOfEntity(e);
      workers, returned := workers[k := w], returned + {e};
    }

    /** Records a spawn under a handle the worker of the thread holds back. */
    method Defer(thread: nat, t: BundleType, val: Bundle) returns (r: Option<Entity>)
      requires Valid() && ValueOf(t, val)
      modifies this`workers, this`returned, world.allocator
      ensures Valid() && Deferred(old(Seen()), thread, t, val, r, Seen())
    {
      hide *;
      ghost var s, state := Seen(), world.allocator.State();
      SeenParts();
      var k := WarmUp(thread);
      SeenParts();
      ghost var ws := workers;
      var ok := HoldHandles(k);
      ghost var dst := workers[k].handles;
      if !ok {
        NothingDeferred(s, thread, t, val, ws, k, dst, Seen());
        return None;
      }
      var e := RecordCreate(k, t, val);
      SeenParts();
      SpawnDeferred(s, thread, t, val, ws, k, dst, Seen());
      return Some(e);
    }

    /**
      Spawns at once, or takes a handle the worker holds back and records the rest. No handle is
      ever returned twice, and a deferred one does not exist before the sync point.
     */
    method TryCreate(thread: nat, t: BundleType, val: Bundle) returns (r: Outcome<Entity>, drops: seq<Payload>)
      requires Valid() && ValueOf(t, val)
      modifies this`returned
      modifies this`workers, world`components, world`specs, world`version, world`setIds, world`typeIds, world`addEdges, world`removeEdges, world`Repr, world.Repr, world.allocator
      ensures fresh(world.Repr - old(world.Repr))
      ensures r.Panicked? ==> !old(inParallel) && old(world.allocator.State()).Room() > 0 && CannotHost(old(world.specs), t, DEFAULT_KIND)
      ensures !r.Panicked? ==> Valid()
      ensures old(inParallel) ==>
        && Deferred(old(Seen()), thread, t, val, GivenHandle(r), Seen())
        && (if r.Done? then drops == [] else r == Failed(AllocatorFailure(EntityAmountOverflow)) && drops == Payloads(val))
      ensures !old(inParallel) && !r.Panicked? ==>
        && Answers(r, SpawnRefusal(old(Seen()), t)) && Spawned(old(Seen()), val, GivenHandle(r), multiset(drops), Seen())
        && SameFlags(old(world.specs), world.specs) && TriesToSpawn(old(world.allocator.State()), world.allocator.State(), GivenHandle(r))
    {
      hide World.Valid, World.Housed, World.HeapOk, World.Entities, World.Storages, AllocatorState.Reserves, AllPending, Pending, PendingOk, ReturnedOk, StoredAll, Payloads, Overlay;
      hide Locked, IsSingleton, Placeable, PlaceableInAnyOrder, DistinctFields, ComponentsIn, BundleType.ComponentSet, D.SomeoneHas, Passes;
      hide Command.WellFormed, SetsAside;
      if inParallel {
        var e := Defer(thread, t, val);
        match e
        case None => return Failed(AllocatorFailure(EntityAmountOverflow)), Payloads(val);
        case Some(handle) => return Done(handle), [];
      }
      ghost var state := world.allocator.State();
      r, drops := world.TryCreate(t, val);
      if !r.Panicked? {
        WorkersSurviveSpawn(workers, returned, state, world.allocator.State(), GivenHandle(r));
        returned := returned + BornOf(GivenHandle(r));
      }
    }

    /** Adds at once, or records. */
    method TryAdd(thread: nat, e: Entity, t: BundleType, val: Bundle) returns (r: Outcome<()>, drops: seq<Payload>)
      requires Valid() && Add(e, t, val).WellFormed()
      modifies this`workers, world`components, world`specs, world`version, world`setIds, world`typeIds, world`addEdges, world`removeEdges, world`Repr, world.Repr, world.allocator
      ensures fresh(world.Repr - old(world.Repr))
      ensures r.Panicked? ==> !old(inParallel) && MayEnd(old(world.specs), old(world.Entities()), Add(e, t, val))
      ensures !r.Panicked? ==> Valid()
      ensures old(inParallel) ==> r == Done(()) && drops == [] && Seen() == old(Seen()).(workers := WithCommand(old(workers), thread, Add(e, t, val)))
      ensures !old(inParallel) && !r.Panicked? ==>
        && Answers(r, Refusal(old(world.specs), old(world.Entities()), Add(e, t, val))) && Applied(old(Seen()), Add(e, t, val), multiset(drops), Seen())
    {
      hide World.Valid, World.Housed, World.HeapOk, World.Entities, World.Storages, AllocatorState.Reserves, AllPending, Pending, PendingOk, ReturnedOk, StoredAll, Payloads, Overlay;
      hide Locked, IsSingleton, Placeable, PlaceableInAnyOrder, DistinctFields, ComponentsIn, BundleType.ComponentSet, D.SomeoneHas, Passes;
      SameFlagsTrivially(world.specs);
      if inParallel {
        Record(thread, Add(e, t, val));
        return Done(()), [];
      }
      ghost var state := world.allocator.State();
      if e in old(world.Entities()) {
        Objections(world.specs, world.Entities()[e].Keys, t, true);
      }
      r, drops := world.TryAddComponent(e, t, val);
      if !r.Panicked? {
        WorkersSurvive(workers, returned, state, world.allocator.State(), {}, 0);
      }
    }

    /** Merges at once, or records. */
    method TryMerge(thread: nat, e: Entity, t: BundleType, val: Bundle) returns (r: Outcome<()>, drops: seq<Payload>)
      requires Valid() && Merge(e, t, val).WellFormed()
      modifies this`workers, world`components, world`specs, world`version, world`setIds, world`typeIds, world`addEdges, world`removeEdges, world`Repr, world.Repr, world.allocator
      ensures fresh(world.Repr - old(world.Repr))
      ensures r.Panicked? ==> !old(inParallel) && MayEnd(old(world.specs), old(world.Entities()), Merge(e, t, val))
      ensures !r.Panicked? ==> Valid()
      ensures old(inParallel) ==> r == Done(()) && drops == [] && Seen() == old(Seen()).(workers := WithCommand(old(workers), thread, Merge(e, t, val)))
      ensures !old(inParallel) && !r.Panicked? ==>
        && Answers(r, Refusal(old(world.specs), old(world.Entities()), Merge(e, t, val))) && Applied(old(Seen()), Merge(e, t, val), multiset(drops), Seen())
    {
      hide World.Valid, World.Housed, World.HeapOk, World.Entities, World.Storages, AllocatorState.Reserves, AllPending, Pending, PendingOk, ReturnedOk, StoredAll, Payloads, Overlay;
      hide Locked, IsSingleton, Placeable, PlaceableInAnyOrder, DistinctFields, ComponentsIn, BundleType.ComponentSet, D.SomeoneHas, Passes;
      SameFlagsTrivially(world.specs);
      if inParallel {
        Record(thread, Merge(e, t, val));
        return Done(()), [];
      }
      ghost var state := world.allocator.State();
      r, drops := world.TryMergeComponent(e, t, val);
      if !r.Panicked? {
        WorkersSurvive(workers, returned, state, world.allocator.State(), {}, 0);
      }
    }

    /** Destroys at once, or records. */
    method TryDestroy(thread: nat, e: Entity) returns (r: Outcome<()>, drops: seq<Payload>)
      requires Valid() && Destroy(e).WellFormed()
      modifies this`workers, world`components, world`specs, world`version, world`setIds, world`typeIds, world`addEdges, world`removeEdges, world`Repr, world.Repr, world.allocator
      ensures fresh(world.Repr - old(world.Repr))
      ensures r.Panicked? ==> !old(inParallel) && MayEnd(old(world.specs), old(world.Entities()), Destroy(e))
      ensures !r.Panicked? ==> Valid()
      ensures old(inParallel) ==> r == Done(()) && drops == [] && Seen() == old(Seen()).(workers := WithCommand(old(workers), thread, Destroy(e)))
      ensures !old(inParallel) && !r.Panicked? ==>
        && Answers(r, Refusal(old(world.specs), old(world.Entities()), Destroy(e))) && Applied(old(Seen()), Destroy(e), multiset(drops), Seen())
    {
      hide World.Valid, World.Housed, World.HeapOk, World.Entities, World.Storages, AllocatorState.Reserves, AllPending, Pending, PendingOk, ReturnedOk, StoredAll, Payloads, Overlay;
      hide Locked, IsSingleton, Placeable, PlaceableInAnyOrder, DistinctFields, ComponentsIn, BundleType.ComponentSet, D.SomeoneHas, Passes;
      SameFlagsTrivially(world.specs);
      if inParallel {
        Record(thread, Destroy(e));
        return Done(()), [];
      }
      ghost var state := world.allocator.State();
      r, drops := world.TryDestroy(e);
      if !r.Panicked? {
        WorkersSurvive(workers, returned, state, world.allocator.State(), {}, if r.Done? then FreedBy(e) else 0);
      }
    }

    /** Removes at once and hands the values back, or records; what a recorded removal takes off is dropped at the sync point. */
    method TryRemove(thread: nat, e: Entity, t: BundleType) returns (r: Outcome<Option<seq<seq<byte>>>>)
      requires Valid() && Remove(e, t).WellFormed()
      modifies this`workers, world`components, world`specs, world`version, world`setIds, world`typeIds, world`addEdges, world`removeEdges, world`Repr, world.Repr, world.allocator
      ensures fresh(world.Repr - old(world.Repr))
      ensures r.Panicked? ==> !old(inParallel) && MayEnd(old(world.specs), old(world.Entities()), Remove(e, t))
      ensures !r.Panicked? ==> Valid()
      ensures old(inParallel) ==> r == Done(None) && Seen() == old(Seen()).(workers := WithCommand(old(workers), thread, Remove(e, t)))
      ensures !old(inParallel) && !r.Panicked? ==>
        && Answers(r, Refusal(old(world.specs), old(world.Entities()), Remove(e, t)))
        && (r.Done? ==> r.value.Some? && e in old(world.Entities()) && ValuesOf(old(world.Entities())[e], t, r.value.value))
        && Applied(old(Seen()), Remove(e, t), multiset(if r.Done? then Returned(t, r.value.value) else []), Seen())
    {
      hide World.Valid, World.Housed, World.HeapOk, World.Entities, World.Storages, AllocatorState.Reserves, AllPending, Pending, PendingOk, ReturnedOk, StoredAll, Payloads, Overlay;
      hide Locked, IsSingleton, Placeable, PlaceableInAnyOrder, DistinctFields, ComponentsIn, BundleType.ComponentSet, D.SomeoneHas, Passes;
      hide ValuesOf, Returned;
      SameFlagsTrivially(world.specs);
      if inParallel {
        Record(thread, Remove(e, t));
        return Done(None);
      }
      ghost var state := world.allocator.State();
      if e in old(world.Entities()) {
        Objections(world.specs, world.Entities()[e].Keys, t, false);
      }
      var removed := world.TryRemoveComponent(e, t);
      if !removed.Panicked? {
        WorkersSurvive(workers, returned, state, world.allocator.State(), {}, 0);
      }
      match removed
      case Done(values) => r := Done(Some(values));
      case Failed(error) => r := Failed(error);
      case Panicked => r := Panicked;
    }

    // -------------------------------------------------------------------------------------------
    // What is called on the world itself, beside commands that wait
    // -------------------------------------------------------------------------------------------

    /** `try_create_singleton` */
    method CreateSingleton(t: BundleType, val: Bundle) returns (r: Outcome<Entity>, drops: seq<Payload>)
      requires Valid() && ValueOf(t, val) && forall c :: c in t.Components() ==> c.Valid()
      modifies this`returned, world`components, world`specs, world`version, world`setIds, world`typeIds, world`Repr, world.Repr, world.allocator
      ensures fresh(world.Repr - old(world.Repr))
      ensures r.Panicked? <==> CannotHost(old(world.specs), t, Singleton)
      ensures !r.Panicked? ==>
        && Valid() && Answers(r, SingletonRefusal(old(Seen()), t)) && Spawned(old(Seen()), val, GivenHandle(r), multiset(drops), Seen())
        && SpecsGrown(old(world.specs), world.specs, Singleton)
        && OneMore(old(world.specs), world.specs, t.ComponentSet()) && Known(world.specs, t.ComponentSet())
        && (if r.Done? then TriesToSpawn(old(world.allocator.State()), world.allocator.State(), Some(r.value))
            else world.allocator.State() == old(world.allocator.State()))
    {
      hide World.Valid, World.Housed, World.HeapOk, World.Entities, World.Storages, AllocatorState.Reserves, AllPending, Pending, PendingOk, ReturnedOk, StoredAll, Payloads, Overlay;
      hide Locked, IsSingleton, Placeable, PlaceableInAnyOrder, DistinctFields, ComponentsIn, BundleType.ComponentSet, D.SomeoneHas, Passes;
      hide Hostable, Known, SpecsGrown, OneMore, TriesToSpawn;
      ghost var state := world.allocator.State();
      r, drops := world.TryCreateSingleton(t, val);
      if r.Done? {
        SpawnTried(state, world.allocator.State(), r.value);
        WorkersSurviveSpawn(workers, returned, state, world.allocator.State(), GivenHandle(r));
        returned := returned + {r.value};
      }
    }

    /** A write through a query of a system, inside a group or not. */
    method WriteThrough(e: Entity, c: Component, edit: RowEdit) returns (reached: bool, drops: seq<Payload>)
      requires Valid() && edit.Fits(c)
      modifies world`Repr, world.Repr
      ensures fresh(world.Repr - old(world.Repr))
      ensures Valid() && Wrote(old(Seen()), e, c, edit, reached, multiset(drops), Seen())
    {
      hide World.Valid, World.Housed, World.HeapOk, World.Entities, World.Storages, AllocatorState.Reserves, AllPending, Pending, PendingOk, ReturnedOk, StoredAll, EditedCells, RowEdit.Gives;
      reached, drops := world.WriteThrough(e, c, edit);
    }

    /** `try_register_archetype` */
    method RegisterArchetype(t: BundleType, chunkSize: nat, allow: bool) returns (r: Outcome<()>)
      requires Valid() && chunkSize <= USIZE_MAX
      modifies world`components, world`specs, world`version, world`setIds, world`typeIds, world`Repr
      ensures fresh(world.Repr - old(world.Repr))
      ensures r.Panicked? <==> ValidChunkSize(chunkSize) && CannotHost(old(world.specs), t, Chunked(chunkSize, allow))
      ensures !r.Panicked? ==>
        && Valid() && Answers(r, RegistrationRefusal(world.specs, t, chunkSize, allow))
        && Seen() == old(Seen()).(specs := world.specs) && SpecsGrown(old(world.specs), world.specs, Chunked(chunkSize, allow))
        && OneMore(old(world.specs), world.specs, t.ComponentSet())
        && (r.Failed? ==> world.specs == old(world.specs))
    {
      hide World.Valid, World.Housed, World.HeapOk, World.Entities, World.Storages, AllocatorState.Reserves, AllPending, Pending, PendingOk, ReturnedOk, StoredAll, Payloads, Overlay;
      hide Locked, IsSingleton, Placeable, PlaceableInAnyOrder, DistinctFields, ComponentsIn, BundleType.ComponentSet, D.SomeoneHas, Passes;
      hide Hostable, Configured, OneMore;
      ghost var specs0, storages0 := world.specs, world.Storages();
      r := world.TryRegisterArchetype(t, chunkSize, allow);
      if !r.Panicked? {
        RegisteredKeeps(specs0, storages0, world.specs, world.Storages(), Chunked(chunkSize, allow));
      }
    }

    /** `try_register_singleton` */
    method RegisterSingleton(t: BundleType) returns (r: Outcome<()>)
      requires Valid() && forall c :: c in t.Components() ==> c.Valid()
      modifies world`components, world`specs, world`version, world`setIds, world`typeIds, world`Repr
      ensures fresh(world.Repr - old(world.Repr))
      ensures r.Panicked? <==> CannotHost(old(world.specs), t, Singleton)
      ensures !r.Panicked? ==>
        && Valid() && Answers(r, if Known(old(world.specs), t.ComponentSet()) && !IsSingleton(old(world.specs), t.ComponentSet())
                                 then Some(ArchetypeIsNotSingleton) else None)
        && Seen() == old(Seen()).(specs := world.specs) && SpecsGrown(old(world.specs), world.specs, Singleton)
        && OneMore(old(world.specs), world.specs, t.ComponentSet()) && Known(world.specs, t.ComponentSet())
    {
      hide World.Valid, World.Housed, World.HeapOk, World.Entities, World.Storages, AllocatorState.Reserves, AllPending, Pending, PendingOk, ReturnedOk, StoredAll, Payloads, Overlay;
      hide Locked, IsSingleton, Placeable, PlaceableInAnyOrder, DistinctFields, ComponentsIn, BundleType.ComponentSet, D.SomeoneHas, Passes;
      hide Hostable, Known, OneMore;
      ghost var specs0, storages0 := world.specs, world.Storages();
      var id := world.GetOrCreateSingletonId(t);
      if !id.Panicked? {
        RegisteredKeeps(specs0, storages0, world.specs, world.Storages(), Singleton);
      }
      match id
      case Done(_) => r := Done(());
      case Failed(error) => r := Failed(error);
      case Panicked => r := Panicked;
    }

    /** `advance_tick` */
    method AdvanceTick()
      requires Valid() && world.Ticking()
      modifies world`tick, world`now
      ensures Valid() && world.Ticking() && world.now == old(world.now) + 1
      ensures Seen() == old(Seen()).(tick := NextTick(old(world.tick)))
    {
      hide World.Valid, World.Housed, World.HeapOk, World.Entities, World.Storages, AllocatorState.Reserves, AllPending, Pending, PendingOk, ReturnedOk, StoredAll;
      NextTickOf(world.now);
      var _ := world.AdvanceTick();
    }

    /** The preparation pass beside commands that wait; only the query and component registries change. */
    method PrepareQueries(qss: seq<seq<(nat, Option<Declared>)>>) returns (ok: bool)
      requires Valid()
      modifies world`components, world`queries, world`builtAt
      ensures Valid() && Seen() == old(Seen())
      ensures (forall k :: 0 <= k < |qss| ==> Preparable(qss[k])) ==> ok
      ensures ok ==> forall k :: 0 <= k < |qss| ==> world.AllCurrent(qss[k])
    {
      hide World.Valid, World.Housed, World.HeapOk, World.Entities, World.Storages, World.AllCurrent, Preparable, AllocatorState.Reserves, AllPending, Pending, PendingOk, ReturnedOk, StoredAll;
      ok := world.PrepareQueries(qss);
    }

    /** `set_in_parallel_compute` */
    method SetInParallel(on: bool)
      requires Valid()
      modifies this`inParallel
      ensures Valid() && inParallel == on && Seen() == old(Seen()).(inParallel := on)
    {
      hide World.Valid, World.Housed, World.HeapOk, World.Entities, World.Storages, PendingOk, ReturnedOk, DistinctThreads, CommandsOk, StoredAll;
      inParallel := on;
    }
  }
}
