/**
  Whole runs: any program of spawns, commands, registrations, ticks, parallel groups and sync points
  over a world, and the drop that ends it.
 */
module Runs {
  import opened Prelude
  import opened Layouts
  import opened Bytes
  import opened Entities
  import opened Cells
  import opened Bundles
  import opened Rows
  import opened Accounts
  import opened Holdings
  import opened Allocators
  import opened Registries
  import opened Worlds
  import opened Commands
  import T = Ticks

  datatype Operation =
    | Spawn(thread: nat, t: BundleType, val: Bundle)
    | SpawnSingleton(t: BundleType, val: Bundle)
    | Perform(thread: nat, cmd: Command)  // adds, merges, removes or destroys
    | RegisterArchetype(t: BundleType, chunkSize: nat, allow: bool)
    | RegisterSingleton(t: BundleType)
    | WarmUp(thread: nat)
    | Write(e: Entity, c: Component, edit: RowEdit)  // through a query
    | Group(on: bool)  // a parallel group begins or ends
    | Tick
    | Sync
  {
    ghost predicate WellFormed() {
      match this
      case Spawn(_, t, val) => ValueOf(t, val)
      case SpawnSingleton(t, val) => ValueOf(t, val) && forall c :: c in t.Components() ==> c.Valid()
      case Perform(_, cmd) => cmd.WellFormed() && !cmd.Create?
      case RegisterArchetype(_, chunkSize, _) => chunkSize <= USIZE_MAX
      case RegisterSingleton(t) => forall c :: c in t.Components() ==> c.Valid()
      case Write(_, c, edit) => edit.Fits(c)
      case _ => true
    }

    /** The values the caller hands over. */
    function Given(): multiset<Payload> {
      match this
      case Spawn(_, _, val) => multiset(Payloads(val))
      case SpawnSingleton(_, val) => multiset(Payloads(val))
      case Perform(_, cmd) => cmd.Given()
      case Write(_, c, edit) => multiset(edit.Gives(c))
      case _ => multiset{}
    }
  }

  datatype Answer = Gave(e: Entity) | HandedBack(values: seq<seq<byte>>) | Fine | Unreached | Refused(error: WorldError)

  /** The handle an answer hands out. */
  function NewHandle(a: Answer): Option<Entity> {
    if a.Gave? then Some(a.e) else None
  }

  /** The values an answer hands back. */
  function Back(op: Operation, a: Answer): seq<Payload> {
    if op.Perform? && op.cmd.Remove? && a.HandedBack? then Returned(op.cmd.t, a.values) else []
  }

  /** What one operation answers, drops and leaves behind, from the state it starts in. */
  ghost predicate Means(op: Operation, s: Snapshot, a: Answer, dropped: seq<Payload>, t: Snapshot) {
    match op
    case Spawn(thread, bt, val) => if s.inParallel then MeansDefer(s, thread, bt, val, a, dropped, t) else MeansSpawn(s, bt, val, a, dropped, t)
    case SpawnSingleton(bt, val) => MeansSingleton(s, bt, val, a, dropped, t)
    case Perform(thread, cmd) =>
      !cmd.Create? &&
      if s.inParallel then a == Fine && dropped == [] && t == s.(workers := WithCommand(s.workers, thread, cmd))
      else MeansPerform(s, op, cmd, a, dropped, t)
    case RegisterArchetype(bt, chunkSize, allow) =>
      && dropped == [] && t == s.(specs := t.specs) && SpecsGrown(s.specs, t.specs, Chunked(chunkSize, allow)) && (a.Refused? ==> t.specs == s.specs)
      && OneMore(s.specs, t.specs, bt.ComponentSet())
      && a == AnswerFor(RegistrationRefusal(t.specs, bt, chunkSize, allow))
    case RegisterSingleton(bt) =>
      && dropped == [] && t == s.(specs := t.specs) && SpecsGrown(s.specs, t.specs, Singleton)
      && OneMore(s.specs, t.specs, bt.ComponentSet()) && Known(t.specs, bt.ComponentSet())
      && a == AnswerFor(if Known(s.specs, bt.ComponentSet()) && !IsSingleton(s.specs, bt.ComponentSet()) then Some(ArchetypeIsNotSingleton) else None)
    case WarmUp(thread) => a == Fine && dropped == [] && t == s.(workers := Enlisted(s.workers, thread))
    case Write(e, c, edit) => (a == Fine || a == Unreached) && Wrote(s, e, c, edit, a == Fine, multiset(dropped), t)
    case Group(on) => a == Fine && dropped == [] && t == s.(inParallel := on)
    case Tick => a == Fine && dropped == [] && t == s.(tick := T.NextTick(s.tick))
    case Sync => a == Fine && Flushed(s, multiset(dropped), t)
  }

  function AnswerFor(refusal: Option<WorldError>): Answer {
    if refusal.Some? then Refused(refusal.value) else Fine
  }

  ghost predicate MeansDefer(s: Snapshot, thread: nat, bt: BundleType, val: Bundle, a: Answer, dropped: seq<Payload>, t: Snapshot) {
    && (a.Gave? || a == Refused(AllocatorFailure(EntityAmountOverflow)))
    && Deferred(s, thread, bt, val, NewHandle(a), t)
    && dropped == if a.Gave? then [] else Payloads(val)
  }

  ghost predicate MeansSpawn(s: Snapshot, bt: BundleType, val: Bundle, a: Answer, dropped: seq<Payload>, t: Snapshot) {
    && (match SpawnRefusal(s, bt) case Some(error) => a == Refused(error) case None => a.Gave?)
    && Spawned(s, val, NewHandle(a), multiset(dropped), t)
    && SameFlags(s.specs, t.specs) && TriesToSpawn(s.allocator, t.allocator, NewHandle(a))
  }

  ghost predicate MeansSingleton(s: Snapshot, bt: BundleType, val: Bundle, a: Answer, dropped: seq<Payload>, t: Snapshot) {
    && (match SingletonRefusal(s, bt) case Some(error) => a == Refused(error) case None => a.Gave?)
    && Spawned(s, val, NewHandle(a), multiset(dropped), t) && SpecsGrown(s.specs, t.specs, Singleton)
    && OneMore(s.specs, t.specs, bt.ComponentSet()) && Known(t.specs, bt.ComponentSet())
    && (if a.Gave? then TriesToSpawn(s.allocator, t.allocator, NewHandle(a)) else t.allocator == s.allocator)
  }

  ghost predicate MeansPerform(s: Snapshot, op: Operation, cmd: Command, a: Answer, dropped: seq<Payload>, t: Snapshot) {
    && (match Refusal(s.specs, s.entities, cmd)
        case Some(error) => a == Refused(error)
        case None =>
          if cmd.Remove? then a.HandedBack? && cmd.e in s.entities && ValuesOf(s.entities[cmd.e], cmd.t, a.values)
          else a == Fine)
    && Applied(s, cmd, multiset(dropped + Back(op, a)), t)
  }

  /** The run may end here: a layout that is needed could fail to be built, or a recorded command is not clean. */
  ghost predicate MayStop(op: Operation, s: Snapshot) {
    match op
    case Spawn(_, t, _) => !s.inParallel && s.allocator.Room() > 0 && CannotHost(s.specs, t, DEFAULT_KIND)
    case SpawnSingleton(t, _) => CannotHost(s.specs, t, Singleton)
    case Perform(_, cmd) => !s.inParallel && MayEnd(s.specs, s.entities, cmd)
    case RegisterArchetype(t, chunkSize, allow) => ValidChunkSize(chunkSize) && CannotHost(s.specs, t, Chunked(chunkSize, allow))
    case RegisterSingleton(t) => CannotHost(s.specs, t, Singleton)
    case Sync => !AllClean(s.specs, s.entities, Recorded(s.workers), s.tick)
    case _ => false
  }

  // ---------------------------------------------------------------------------------------------
  // Running a program
  // ---------------------------------------------------------------------------------------------

  /** A spawn, at once or deferred. */
  method StepSpawn(c: Cmd, op: Operation) returns (ok: bool, answer: Answer, dropped: seq<Payload>)
    requires c.Valid() && op.WellFormed() && (op.Spawn? || op.SpawnSingleton?)
    modifies c`workers, c`returned
    modifies c.world`components, c.world`specs, c.world`version, c.world`setIds, c.world`typeIds, c.world`addEdges, c.world`removeEdges, c.world`Repr, c.world.Repr, c.world.allocator
    ensures fresh(c.world.Repr - old(c.world.Repr))
    ensures ok ==> c.Valid() && Means(op, old(c.Seen()), answer, dropped, c.Seen())
    ensures !ok ==> MayStop(op, old(c.Seen()))
  {
    hide Cmd.Valid, World.Valid, World.Housed, World.HeapOk, World.Entities, World.Storages, AllocatorState.Reserves, PendingOk, ReturnedOk, StoredAll, Payloads, Overlay;
    hide Locked, IsSingleton, Known, Configured, Placeable, PlaceableInAnyOrder, Hostable, DistinctFields, BundleType.ComponentSet, D.SomeoneHas, Passes, ValuesOf, Returned;
    answer, dropped, ok := Fine, [], true;
    var r;
    match op {
      case Spawn(thread, t, val) => r, dropped := c.TryCreate(thread, t, val);
      case SpawnSingleton(t, val) => r, dropped := c.CreateSingleton(t, val);
    }
    match r
    case Done(e) => answer := Gave(e);
    case Failed(error) => answer := Refused(error);
    case Panicked => ok := false;
  }

  /** A change to one entity, at once or deferred. */
  method StepPerform(c: Cmd, op: Operation) returns (ok: bool, answer: Answer, dropped: seq<Payload>)
    requires c.Valid() && op.WellFormed() && op.Perform?
    modifies c`workers, c`returned
    modifies c.world`components, c.world`specs, c.world`version, c.world`setIds, c.world`typeIds, c.world`addEdges, c.world`removeEdges, c.world`Repr, c.world.Repr, c.world.allocator
    ensures fresh(c.world.Repr - old(c.world.Repr))
    ensures ok ==> c.Valid() && Means(op, old(c.Seen()), answer, dropped, c.Seen())
    ensures !ok ==> MayStop(op, old(c.Seen()))
  {
    hide Cmd.Valid, World.Valid, World.Housed, World.HeapOk, World.Entities, World.Storages, AllocatorState.Reserves, PendingOk, ReturnedOk, StoredAll, Payloads, Overlay;
    hide Locked, IsSingleton, Known, Configured, Placeable, PlaceableInAnyOrder, Hostable, DistinctFields, BundleType.ComponentSet, D.SomeoneHas, Passes, ValuesOf, Returned;
    answer, dropped, ok := Fine, [], true;
    var r: Outcome<()>;
    match op.cmd {
      case Add(e, t, val) => r, dropped := c.TryAdd(op.thread, e, t, val);
      case Merge(e, t, val) => r, dropped := c.TryMerge(op.thread, e, t, val);
      case Destroy(e) => r, dropped := c.TryDestroy(op.thread, e);
      case Remove(e, t) =>
        var removed := c.TryRemove(op.thread, e, t);
        match removed {
          case Done(values) =>
            r := Done(());
            answer := if values.Some? then HandedBack(values.value) else Fine;
          case Failed(error) => r := Failed(error);
          case Panicked => r := Panicked;
        }
    }
    match r {
      case Done(_) =>
      case Failed(error) => answer := Refused(error);
      case Panicked => ok := false;
    }
    assert dropped + [] == dropped;
    assert [] + Back(op, answer) == Back(op, answer);
  }

  /** An operation on the world alone. */
  method StepWorld(c: Cmd, op: Operation) returns (ok: bool, answer: Answer, dropped: seq<Payload>)
    requires c.Valid() && c.world.Ticking() && op.WellFormed() && !op.Spawn? && !op.SpawnSingleton? && !op.Perform?
    modifies c`workers, c`returned
    modifies c.world`components, c.world`specs, c.world`version, c.world`setIds, c.world`typeIds, c.world`addEdges, c.world`removeEdges, c.world`Repr, c.world.Repr, c.world.allocator
    modifies c`inParallel, c.world`tick, c.world`now
    ensures fresh(c.world.Repr - old(c.world.Repr))
    ensures ok ==> c.Valid() && c.world.Ticking() && Means(op, old(c.Seen()), answer, dropped, c.Seen())
    ensures !ok ==> MayStop(op, old(c.Seen()))
  {
    hide Cmd.Valid, World.Valid, World.Housed, World.HeapOk, World.Entities, World.Storages, AllocatorState.Reserves, PendingOk, ReturnedOk, StoredAll, Payloads, Overlay;
    hide Locked, IsSingleton, Known, Configured, Placeable, PlaceableInAnyOrder, Hostable, DistinctFields, BundleType.ComponentSet, D.SomeoneHas, Passes, ValuesOf, Returned;
    hide EditedCells, RowEdit.Fits, RowEdit.Gives, SpecsGrown, OneMore, Flushed, Enlisted, Blank, MeansSpawn, MeansPerform, MeansDefer, MeansSingleton;
    answer, dropped, ok := Fine, [], true;
    var r := Done(());
    match op {
      case RegisterArchetype(t, chunkSize, allow) => r := c.RegisterArchetype(t, chunkSize, allow);
      case RegisterSingleton(t) => r := c.RegisterSingleton(t);
      case WarmUp(thread) => var _ := c.WarmUp(thread);
      case Write(e, comp, edit) =>
        var reached;
        reached, dropped := c.WriteThrough(e, comp, edit);
        answer := if reached then Fine else Unreached;
      case Group(on) => c.SetInParallel(on);
      case Tick => c.AdvanceTick();
      case Sync => ok, dropped := c.FlushCmd();
    }
    match r
    case Done(_) =>
    case Failed(error) => answer := Refused(error);
    case Panicked => ok := false;
  }

  /** One operation of a program. */
  method Step(c: Cmd, op: Operation) returns (ok: bool, answer: Answer, dropped: seq<Payload>)
    requires c.Valid() && c.world.Ticking() && op.WellFormed()
    modifies c`workers, c`returned
    modifies c.world`components, c.world`specs, c.world`version, c.world`setIds, c.world`typeIds, c.world`addEdges, c.world`removeEdges, c.world`Repr, c.world.Repr, c.world.allocator
    modifies c`inParallel, c.world`tick, c.world`now
    ensures fresh(c.world.Repr - old(c.world.Repr))
    ensures ok ==> c.Valid() && c.world.Ticking() && Means(op, old(c.Seen()), answer, dropped, c.Seen())
    ensures !ok ==> MayStop(op, old(c.Seen()))
  {
    hide *;
    match op
    case Spawn(_, _, _) => ok, answer, dropped := StepSpawn(c, op);
    case SpawnSingleton(_, _) => ok, answer, dropped := StepSpawn(c, op);
    case Perform(_, _) => ok, answer, dropped := StepPerform(c, op);
    case _ => ok, answer, dropped := StepWorld(c, op);
  }

  /** A program with what each of its operations answered and dropped, and every state it went through. */
  datatype Trace = Trace(ops: seq<Operation>, answers: seq<Answer>, drops: seq<seq<Payload>>, states: seq<Snapshot>)

  /** Each operation does what it means in the state it starts in. */
  ghost predicate Follows(tr: Trace) {
    && |tr.answers| == |tr.ops| && |tr.drops| == |tr.ops| && |tr.states| == |tr.ops| + 1
    && (forall i :: 0 <= i < |tr.states| ==> Sound(tr.states[i]))
    && forall i :: 0 <= i < |tr.ops| ==> Means(tr.ops[i], tr.states[i], tr.answers[i], tr.drops[i], tr.states[i + 1])
  }

  /**
    The entities are the live slots, and the values stored those they hold; whoever waits holds a
    reservation of its own, and a component set has one archetype.
   */
  ghost predicate Sound(s: Snapshot) {
    && s.allocator.Ok()
    && (forall e :: e in s.entities <==> Exists(s.allocator.slots, e))
    && PendingOk(s.workers, s.allocator) && ReturnedOk(s.workers, s.returned, s.allocator)
    && DistinctSets(s.specs) && forall p :: s.stored[p] == |Owners(s.entities, p)|
  }

  lemma SeenIsSound(c: Cmd)
    requires c.Valid()
    ensures Sound(c.Seen())
  {
    hide Owners, StoredAll, World.HeapOk, World.Entities, World.Storages, RegistryOk, EdgesOk, PendingOk, ReturnedOk, AllocatorState.IssuedOk, AllocatorState.LivedOk, SlotsOk, FreeOk, Exists, D.Located;
    assert c.world.Valid() && c.world.Housed();
    c.world.StoredIsTheMap();
    assert DistinctSets(c.world.specs) by {
      c.world.Parts();
      c.world.SetsAreDistinct();
    }
    forall e
      ensures e in c.world.Entities() <==> Exists(c.world.allocator.entities, e)
    {
      c.world.HomeOfEntity(e);
    }
  }

  lemma TraceGrows(tr: Trace, op: Operation, a: Answer, dropped: seq<Payload>, t: Snapshot)
    requires Follows(tr) && Means(op, tr.states[|tr.ops|], a, dropped, t) && Sound(t)
    ensures Follows(Trace(tr.ops + [op], tr.answers + [a], tr.drops + [dropped], tr.states + [t]))
  {
    hide Means, Sound;
  }

  /**
    Any program. Every operation does what it means in the state its predecessors left, answers
    included; a program stops early only at an operation that may stop it.
   */
  method Run(c: Cmd, ops: seq<Operation>) returns (answers: seq<Answer>, drops: seq<seq<Payload>>, ghost states: seq<Snapshot>)
    requires c.Valid() && c.world.Ticking() && forall op :: op in ops ==> op.WellFormed()
    modifies c`workers, c`returned
    modifies c.world`components, c.world`specs, c.world`version, c.world`setIds, c.world`typeIds, c.world`addEdges, c.world`removeEdges, c.world`Repr, c.world.Repr, c.world.allocator
    modifies c`inParallel, c.world`tick, c.world`now
    ensures fresh(c.world.Repr - old(c.world.Repr))
    ensures |answers| <= |ops| && Follows(Trace(ops[..|answers|], answers, drops, states)) && states[0] == old(c.Seen())
    ensures |answers| < |ops| ==> MayStop(ops[|answers|], states[|answers|])
    ensures |answers| == |ops| ==> c.Valid() && c.world.Ticking() && c.Seen() == states[|ops|]
  {
    hide *;
    answers, drops, states := [], [], [c.Seen()];
    SeenIsSound(c);
    NothingRan(c.Seen());
    for i := 0 to |ops|
      invariant c.Valid() && c.world.Ticking() && fresh(c.world.Repr - old(c.world.Repr))
      invariant |answers| == i && |states| == i + 1 && states[0] == old(c.Seen()) && states[i] == c.Seen()
      invariant Follows(Trace(ops[..i], answers, drops, states))
    {
      var ok, answer, dropped := Step(c, ops[i]);
      if !ok {
        return;
      }
      SeenIsSound(c);
      TraceGrows(Trace(ops[..i], answers, drops, states), ops[i], answer, dropped, c.Seen());
      assert ops[..i] + [ops[i]] == ops[..i + 1];
      answers, drops, states := answers + [answer], drops + [dropped], states + [c.Seen()];
    }
  }

  lemma NothingRan(s: Snapshot)
    requires Sound(s)
    ensures Follows(Trace([], [], [], [s]))
  {
  }

  // ---------------------------------------------------------------------------------------------
  // Handles over a whole run
  // ---------------------------------------------------------------------------------------------

  /** An answer that hands out a handle hands out a new one. */
  lemma StepReturns(op: Operation, s: Snapshot, a: Answer, dropped: seq<Payload>, t: Snapshot)
    requires Means(op, s, a, dropped, t)
    ensures t.returned == s.returned + BornOf(NewHandle(a))
    ensures a.Gave? ==> a.e !in s.returned
  {
    hide Spawned, SetsAside, Passes, SameFlags, SpecsGrown, Overlay, Apply, ApplyAll, Recorded, StoredAll, Payloads, ValuesOf, Returned, WithCommand, Enlisted, Refusal, D.SomeoneHas, NoneRefused, Emptied;
    SpawnedReturns(s, t);
  }

  lemma SpawnedReturns(s: Snapshot, t: Snapshot)
    ensures forall val, born, dropped :: Spawned(s, val, born, dropped, t) ==>
      t.returned == s.returned + BornOf(born) && (born.Some? ==> born.value !in s.returned && born.value !in s.allocator.issued)
  {
    hide Overlay, Payloads;
  }

  lemma {:induction false} ReturnedGrows(tr: Trace, i: nat, j: nat)
    requires Follows(tr) && i <= j <= |tr.ops|
    ensures tr.states[i].returned <= tr.states[j].returned
  {
    hide Means, Sound;
    if i < j {
      ReturnedGrows(tr, i, j - 1);
      StepReturns(tr.ops[j - 1], tr.states[j - 1], tr.answers[j - 1], tr.drops[j - 1], tr.states[j]);
    }
  }

  /** No handle is ever returned twice: not by spawns at once, not by deferred ones, not across them. */
  lemma HandlesAreNew(tr: Trace, i: nat, j: nat)
    requires Follows(tr) && i < j < |tr.ops| && tr.answers[i].Gave? && tr.answers[j].Gave?
    ensures tr.answers[i].e != tr.answers[j].e
    ensures tr.answers[j].e !in tr.states[0].returned
  {
    hide Means, Sound;
    StepReturns(tr.ops[i], tr.states[i], tr.answers[i], tr.drops[i], tr.states[i + 1]);
    StepReturns(tr.ops[j], tr.states[j], tr.answers[j], tr.drops[j], tr.states[j + 1]);
    ReturnedGrows(tr, i + 1, j);
    ReturnedGrows(tr, 0, j);
  }

  /** The handles that begin to live in a step, and those whose life ends. */
  function Births(op: Operation, s: Snapshot, a: Answer): set<Entity> {
    if op.Sync? then BornByAll(Recorded(s.workers))
    else if Waits(op, s.inParallel) then {}
    else BornOf(NewHandle(a))
  }

  function Deaths(op: Operation, s: Snapshot, a: Answer): set<Entity> {
    if op.Sync? then KilledByAll(Recorded(s.workers))
    else if op.Perform? && op.cmd.Destroy? && a == Fine && !s.inParallel then {op.cmd.e}
    else {}
  }

  function KilledBy(cmd: Command): set<Entity> {
    if cmd.Destroy? then {cmd.e} else {}
  }

  function KilledByAll(cmds: seq<Command>): set<Entity> {
    if cmds == [] then {} else KilledByAll(cmds[..|cmds| - 1]) + KilledBy(cmds[|cmds| - 1])
  }

  /** The operation takes effect at the next sync point only. */
  predicate Waits(op: Operation, inParallel: bool) {
    inParallel && (op.Spawn? || op.Perform?)
  }

  /** In each step exactly its births begin, and nothing that was over comes back. */
  lemma StepOutlives(op: Operation, s: Snapshot, a: Answer, dropped: seq<Payload>, t: Snapshot)
    requires Means(op, s, a, dropped, t)
    ensures Outlives(s.allocator, t.allocator, Births(op, s, a))
  {
    hide Passes, Outlives, TriesToSpawn, SetsAside, SameFlags, SpecsGrown, Overlay, Apply, ApplyAll, Recorded, StoredAll, Payloads, ValuesOf, Returned, WithCommand, Enlisted, D.SomeoneHas;
    hide NoneRefused, Emptied, BornByAll, RoomMadeByAll, RoomMadeBy, Refusal;
    PassesTrivially(s.allocator);
    PassingOutlives(s.allocator, s.allocator, {}, {}, 0);
    match op
    case Spawn(thread, _, _) =>
      if s.inParallel {
        DeferringOutlives(s, thread, op.t, op.val, NewHandle(a), t);
      } else {
        TryingOutlives(s.allocator, t.allocator, NewHandle(a));
      }
    case SpawnSingleton(_, _) =>
      if a.Gave? {
        TryingOutlives(s.allocator, t.allocator, NewHandle(a));
      }
    case Perform(_, cmd) =>
      if !s.inParallel {
        AppliedOutlives(s, cmd, multiset(dropped + Back(op, a)), t);
      }
    case Sync =>
      PassingOutlives(s.allocator, t.allocator, {}, BornByAll(Recorded(s.workers)), RoomMadeByAll(Recorded(s.workers)));
    case _ =>
  }

  lemma DeferringOutlives(s: Snapshot, thread: nat, bt: BundleType, val: Bundle, born: Option<Entity>, t: Snapshot)
    requires Deferred(s, thread, bt, val, born, t)
    ensures Outlives(s.allocator, t.allocator, {})
  {
    hide Passes, Outlives, AllocatorState.Reserves;
    var held, left := Enlisted(s.workers, thread)[WorkerOf(s.workers, thread)].handles, t.workers[WorkerOf(s.workers, thread)].handles;
    var dst := if born.Some? then [born.value] + left else left;
    assert SetsAside(s.allocator, t.allocator, held, dst);
    PassingOutlives(s.allocator, t.allocator, Among(dst[|held|..]), {}, |held| - |dst|);
  }

  lemma AppliedOutlives(s: Snapshot, cmd: Command, dropped: multiset<Payload>, t: Snapshot)
    requires Applied(s, cmd, dropped, t) && !cmd.Create?
    ensures Outlives(s.allocator, t.allocator, {})
  {
    hide Passes, Outlives, Refusal, Apply, SameFlags, RoomMadeBy;
    var done := Refusal(s.specs, s.entities, cmd) == None;
    PassingOutlives(s.allocator, t.allocator, {}, if done then BornBy(cmd) else {}, if done then RoomMadeBy(cmd) else 0);
  }

  /** Along every run the dead stay dead and retired slots stay retired. */
  lemma {:induction false} NothingComesBack(tr: Trace, i: nat, j: nat)
    requires Follows(tr) && i <= j <= |tr.ops|
    ensures forall e :: tr.states[i].allocator.Dead(e) ==> tr.states[j].allocator.Dead(e) && e !in tr.states[j].entities
    ensures forall k :: tr.states[i].allocator.Retired(k) ==> tr.states[j].allocator.Retired(k)
    ensures forall k, e: Entity :: tr.states[i].allocator.Retired(k) && e.Idx() == k ==> e !in tr.states[j].entities && e !in AllPending(tr.states[j].workers)
  {
    hide Means, AllocatorState.Ok, AllPending, Entity.Idx, Entity.Version;
    if i < j {
      NothingComesBack(tr, i, j - 1);
      StepOutlives(tr.ops[j - 1], tr.states[j - 1], tr.answers[j - 1], tr.drops[j - 1], tr.states[j]);
    }
    var t := tr.states[j];
    assert Sound(t);
    forall k, e: Entity | t.allocator.Retired(k) && e.Idx() == k
      ensures e !in t.entities && e !in AllPending(t.workers)
    {
      RetiredIsEmpty(t.allocator, k, e);
    }
  }

  // ---------------------------------------------------------------------------------------------
  // Archetypes over a whole run
  // ---------------------------------------------------------------------------------------------

  lemma StepKeepsSpecs(op: Operation, s: Snapshot, a: Answer, dropped: seq<Payload>, t: Snapshot)
    requires Means(op, s, a, dropped, t)
    ensures s.specs <= t.specs
  {
    hide Passes, TriesToSpawn, SetsAside, Locked, IsSingleton, Overlay, Apply, ApplyAll, Recorded, StoredAll, Payloads, ValuesOf, Returned, WithCommand, Enlisted, Refusal, D.SomeoneHas, NoneRefused, Emptied, EditedCells;
  }

  /** Along every run archetypes stay as they were registered. */
  lemma {:induction false} SpecsOnlyGrow(tr: Trace, i: nat, j: nat)
    requires Follows(tr) && i <= j <= |tr.ops|
    ensures tr.states[i].specs <= tr.states[j].specs
  {
    hide Means, Sound;
    if i < j {
      SpecsOnlyGrow(tr, i, j - 1);
      StepKeepsSpecs(tr.ops[j - 1], tr.states[j - 1], tr.answers[j - 1], tr.drops[j - 1], tr.states[j]);
    }
  }

  /** Once a program has registered an archetype, no later spawn into it can stop the run, however large the bundle. */
  lemma RegisteredNeverStops(tr: Trace, i: nat, j: nat, thread: nat, t: BundleType, val: Bundle)
    requires Follows(tr) && i < j <= |tr.ops| && tr.ops[i].RegisterArchetype? && tr.answers[i] == Fine
    requires DistinctFields(t) && t.ComponentSet() == tr.ops[i].t.ComponentSet()
    ensures !MayStop(Spawn(thread, t, val), tr.states[j])
  {
    hide Sound, ComponentsOf, BundleType.ComponentSet, IsSingleton, ValidChunkSize, SpecsGrown, DistinctFields, Hostable;
    var specs := tr.states[i + 1].specs;
    assert RegistrationRefusal(specs, tr.ops[i].t, tr.ops[i].chunkSize, tr.ops[i].allow) == None by {
      assert Means(tr.ops[i], tr.states[i], tr.answers[i], tr.drops[i], tr.states[i + 1]);
    }
    assert Known(specs, t.ComponentSet());
    hide Means;
    SpecsOnlyGrow(tr, i + 1, j);
    KnownGrows(specs, tr.states[j].specs, t.ComponentSet());
  }

  /** The operation makes the component set a singleton, or finds that it is one. */
  ghost predicate MakesSingleton(op: Operation, a: Answer, cs: set<Component>) {
    (op.RegisterSingleton? || op.SpawnSingleton?) && op.t.ComponentSet() == cs && a != Refused(ArchetypeIsNotSingleton)
  }

  /** The operation registers the component set with structure changes locked, or finds it so. */
  ghost predicate MakesLock(op: Operation, a: Answer, cs: set<Component>) {
    MakesSingleton(op, a, cs) || (op.RegisterArchetype? && op.t.ComponentSet() == cs && !op.allow && a == Fine)
  }

  ghost predicate SingletonsLocked(specs: seq<ArchetypeSpec>) {
    forall cs :: IsSingleton(specs, cs) ==> Locked(specs, cs)
  }

  /** What one more archetype, or none, does to the flags of a component set. */
  lemma OneMoreFlags(specs: seq<ArchetypeSpec>, specs': seq<ArchetypeSpec>, kind: ArchetypeKind, cs: set<Component>, ds: set<Component>)
    requires SpecsGrown(specs, specs', kind) && OneMore(specs, specs', cs)
    ensures IsSingleton(specs', ds) <==> IsSingleton(specs, ds) || (specs' != specs && ds == cs && kind.Singleton?)
    ensures Locked(specs', ds) <==> Locked(specs, ds) || (specs' != specs && ds == cs && (kind.Chunked? ==> !kind.allow))
    ensures Known(specs, cs) ==> specs' == specs
  {
    hide ComponentsOf;
    var n := |specs|;
    assert forall b :: 0 <= b < n ==> specs'[b] == specs[b];
    if IsSingleton(specs, ds) {
      var b :| 0 <= b < n && ComponentsOf(specs[b].layout) == ds && specs[b].arch.isSingleton;
      assert ComponentsOf(specs'[b].layout) == ds && specs'[b].arch.isSingleton;
    }
    if Locked(specs, ds) {
      var b :| 0 <= b < n && ComponentsOf(specs[b].layout) == ds && !specs[b].allowStructureChange;
      assert ComponentsOf(specs'[b].layout) == ds && !specs'[b].allowStructureChange;
    }
  }

  lemma KnownFlags(specs: seq<ArchetypeSpec>, cs: set<Component>)
    ensures IsSingleton(specs, cs) ==> Known(specs, cs)
    ensures forall chunkSize :: Configured(specs, cs, chunkSize, false) ==> Locked(specs, cs)
  {
    hide ComponentsOf;
  }

  lemma StepLocks(op: Operation, s: Snapshot, a: Answer, dropped: seq<Payload>, t: Snapshot, cs: set<Component>)
    requires Means(op, s, a, dropped, t) && SingletonsLocked(s.specs)
    ensures IsSingleton(t.specs, cs) <==> IsSingleton(s.specs, cs) || MakesSingleton(op, a, cs)
    ensures Locked(t.specs, cs) <==> Locked(s.specs, cs) || MakesLock(op, a, cs)
  {
    hide Passes, TriesToSpawn, SetsAside, Locked, IsSingleton, Known, Configured, OneMore, Overlay, Apply, ApplyAll, Recorded, StoredAll, Payloads, ValuesOf, Returned, WithCommand, Enlisted, Refusal;
    hide D.SomeoneHas, NoneRefused, Emptied, EditedCells, SpecsGrown, BundleType.ComponentSet, Spawned, GivenBy, BornByAll, RoomMadeByAll, RowEdit.Gives;
    match op
    case SpawnSingleton(bt, _) => LocksOfSingleton(op, s, a, t, bt.ComponentSet(), cs);
    case RegisterSingleton(bt) => LocksOfSingleton(op, s, a, t, bt.ComponentSet(), cs);
    case RegisterArchetype(bt, chunkSize, allow) =>
      OneMoreFlags(s.specs, t.specs, Chunked(chunkSize, allow), bt.ComponentSet(), cs);
      KnownFlags(t.specs, cs);
      OneMoreFlags(s.specs, t.specs, Chunked(chunkSize, allow), bt.ComponentSet(), bt.ComponentSet());
    case _ =>
  }

  lemma LocksOfSingleton(op: Operation, s: Snapshot, a: Answer, t: Snapshot, own: set<Component>, cs: set<Component>)
    requires (op.RegisterSingleton? || op.SpawnSingleton?) && op.t.ComponentSet() == own
    requires SpecsGrown(s.specs, t.specs, Singleton) && OneMore(s.specs, t.specs, own) && Known(t.specs, own) && SingletonsLocked(s.specs)
    requires a == Refused(ArchetypeIsNotSingleton) <==> Known(s.specs, own) && !IsSingleton(s.specs, own)
    ensures IsSingleton(t.specs, cs) <==> IsSingleton(s.specs, cs) || MakesSingleton(op, a, cs)
    ensures Locked(t.specs, cs) <==> Locked(s.specs, cs) || MakesLock(op, a, cs)
  {
    hide SpecsGrown, OneMore, Known, IsSingleton, Locked, BundleType.ComponentSet;
    OneMoreFlags(s.specs, t.specs, Singleton, own, cs);
    OneMoreFlags(s.specs, t.specs, Singleton, own, own);
    KnownFlags(s.specs, own);
  }

  /** Some operation before the `n`-th made the component set a singleton. */
  ghost predicate MadeSingleton(tr: Trace, n: nat, cs: set<Component>)
    requires n <= |tr.ops| == |tr.answers|
  {
    exists i :: 0 <= i < n && MakesSingleton(tr.ops[i], tr.answers[i], cs)
  }

  ghost predicate MadeLock(tr: Trace, n: nat, cs: set<Component>)
    requires n <= |tr.ops| == |tr.answers|
  {
    exists i :: 0 <= i < n && MakesLock(tr.ops[i], tr.answers[i], cs)
  }

  /**
    On every program a component set is a singleton exactly when an operation made it one, and locked
    exactly when an operation registered it as a singleton or locked. No spawn, add, merge or removal
    locks or unlocks anything.
   */
  lemma {:induction false} LockedIffRegistered(tr: Trace, n: nat)
    requires Follows(tr) && Blank(tr.states[0]) && n <= |tr.ops|
    ensures forall cs :: IsSingleton(tr.states[n].specs, cs) <==> MadeSingleton(tr, n, cs)
    ensures forall cs :: Locked(tr.states[n].specs, cs) <==> MadeLock(tr, n, cs)
  {
    hide Means, Sound, IsSingleton, Locked, MakesSingleton, MakesLock;
    if n == 0 {
      NoFlags(tr.states[0].specs);
    } else {
      var i := n - 1;
      LockedIffRegistered(tr, i);
      forall cs
        ensures MadeSingleton(tr, i, cs) ==> MadeLock(tr, i, cs)
      {
        SingletonIsLock(tr, i, cs);
      }
      forall cs
        ensures IsSingleton(tr.states[n].specs, cs) <==> MadeSingleton(tr, n, cs)
        ensures Locked(tr.states[n].specs, cs) <==> MadeLock(tr, n, cs)
      {
        StepLocks(tr.ops[i], tr.states[i], tr.answers[i], tr.drops[i], tr.states[n], cs);
      }
    }
  }

  lemma SingletonIsLock(tr: Trace, n: nat, cs: set<Component>)
    requires n <= |tr.ops| == |tr.answers|
    ensures MadeSingleton(tr, n, cs) ==> MadeLock(tr, n, cs)
  {
    hide MakesSingleton;
    if i :| 0 <= i < n && MakesSingleton(tr.ops[i], tr.answers[i], cs) {
      assert MakesLock(tr.ops[i], tr.answers[i], cs);
    }
  }

  lemma NoFlags(specs: seq<ArchetypeSpec>)
    requires specs == []
    ensures forall cs :: !IsSingleton(specs, cs) && !Locked(specs, cs)
  {
  }

  /** An archetype keeps the configuration it was registered with: a later registration agrees with it or is refused. */
  lemma ConfigurationStays(tr: Trace, i: nat, j: nat)
    requires Follows(tr) && i < j < |tr.ops| && tr.ops[i].RegisterArchetype? && tr.answers[i] == Fine && tr.ops[j].RegisterArchetype?
    requires tr.ops[j].t.ComponentSet() == tr.ops[i].t.ComponentSet() && ValidChunkSize(tr.ops[j].chunkSize)
    ensures tr.answers[j] == if tr.ops[j].chunkSize == tr.ops[i].chunkSize && tr.ops[j].allow == tr.ops[i].allow then Fine else Refused(AlreadyCreatedDifferently)
  {
    hide Sound, BundleType.ComponentSet, SpecsGrown, OneMore, IsSingleton, Configured;
    var cs := tr.ops[i].t.ComponentSet();
    var before, after := tr.states[i + 1].specs, tr.states[j + 1].specs;
    assert Configured(before, cs, tr.ops[i].chunkSize, tr.ops[i].allow) && !IsSingleton(before, cs) by {
      assert Means(tr.ops[i], tr.states[i], tr.answers[i], tr.drops[i], tr.states[i + 1]);
    }
    assert tr.answers[j] == AnswerFor(RegistrationRefusal(after, tr.ops[j].t, tr.ops[j].chunkSize, tr.ops[j].allow)) by {
      assert Means(tr.ops[j], tr.states[j], tr.answers[j], tr.drops[j], tr.states[j + 1]);
    }
    hide Means;
    SpecsOnlyGrow(tr, i + 1, j + 1);
    assert DistinctSets(after) by { SoundSets(tr, j + 1); }
    OneConfiguration(before, after, cs, tr.ops[i].chunkSize, tr.ops[i].allow, tr.ops[j].chunkSize, tr.ops[j].allow);
  }

  lemma SoundSets(tr: Trace, n: nat)
    requires Follows(tr) && n <= |tr.ops|
    ensures DistinctSets(tr.states[n].specs)
  {
    hide Means;
    assert Sound(tr.states[n]);
  }

  lemma OneConfiguration(specs: seq<ArchetypeSpec>, specs': seq<ArchetypeSpec>, cs: set<Component>, size: nat, allow: bool, size': nat, allow': bool)
    requires specs <= specs' && DistinctSets(specs') && Configured(specs, cs, size, allow) && !IsSingleton(specs, cs)
    ensures !IsSingleton(specs', cs) && (Configured(specs', cs, size', allow') <==> size' == size && allow' == allow)
  {
    hide ComponentsOf;
    var a :| 0 <= a < |specs| && ComponentsOf(specs[a].layout) == cs && specs[a].layout.chunkSize == size && specs[a].allowStructureChange == allow;
    assert specs'[a] == specs[a] && !specs[a].arch.isSingleton;
    assert forall b :: 0 <= b < |specs'| && ComponentsOf(specs'[b].layout) == cs ==> b == a;
  }

  // ---------------------------------------------------------------------------------------------
  // What exists
  // ---------------------------------------------------------------------------------------------

  /** The command a deferred operation records. */
  function RecordedBy(op: Operation, a: Answer): Option<Command> {
    match op
    case Spawn(_, t, val) => if a.Gave? then Some(Create(a.e, t, val)) else None
    case Perform(_, cmd) => Some(cmd)
    case _ => None
  }

  /** Commands wait from the operation that records them to the next sync point. */
  lemma StepRecords(op: Operation, s: Snapshot, a: Answer, dropped: seq<Payload>, t: Snapshot, cmd: Command)
    requires Means(op, s, a, dropped, t)
    ensures cmd in Recorded(t.workers) <==>
      !op.Sync? && (cmd in Recorded(s.workers) || (Waits(op, s.inParallel) && RecordedBy(op, a) == Some(cmd)))
  {
    hide Passes, TriesToSpawn, SetsAside, SameFlags, SpecsGrown, Overlay, Apply, ApplyAll, Recorded, StoredAll, Payloads, ValuesOf, Returned, D.SomeoneHas, NoneRefused, Refusal;
    match op
    case Spawn(thread, bt, val) =>
      if s.inParallel {
        DeferringRecords(s, thread, bt, val, NewHandle(a), t, cmd);
      }
    case Perform(thread, c) =>
      if s.inParallel {
        WithCommandRecords(s.workers, thread, c, cmd);
      }
    case WarmUp(thread) => EnlistedRecords(s.workers, thread);
    case Sync => NothingRecorded(Emptied(s.workers));
    case _ =>
  }

  lemma DeferringRecords(s: Snapshot, thread: nat, bt: BundleType, val: Bundle, born: Option<Entity>, t: Snapshot, cmd: Command)
    requires Deferred(s, thread, bt, val, born, t)
    ensures cmd in Recorded(t.workers) <==> cmd in Recorded(s.workers) || (born.Some? && cmd == Create(born.value, bt, val))
  {
    hide SetsAside, Recorded;
    var ws, k := Enlisted(s.workers, thread), WorkerOf(s.workers, thread);
    EnlistedRecords(s.workers, thread);
    var more := if born.Some? then [Create(born.value, bt, val)] else [];
    assert t.workers == ws[k := t.workers[k]] && t.workers[k].cmds == ws[k].cmds + more;
    MoreRecorded(ws, k, t.workers[k], more);
    assert cmd in more <==> born.Some? && cmd == Create(born.value, bt, val);
  }

  lemma WithCommandRecords(workers: seq<WorkerSpec>, thread: nat, c: Command, cmd: Command)
    ensures cmd in Recorded(WithCommand(workers, thread, c)) <==> cmd in Recorded(workers) || cmd == c
  {
    hide Recorded;
    var ws, k := Enlisted(workers, thread), WorkerOf(workers, thread);
    EnlistedRecords(workers, thread);
    var w := ws[k].(cmds := ws[k].cmds + [c]);
    MoreRecorded(ws, k, w, [c]);
    assert WithCommand(workers, thread, c) == ws[k := w];
    assert cmd in [c] <==> cmd == c;
  }

  lemma EnlistedRecords(workers: seq<WorkerSpec>, thread: nat)
    ensures Recorded(Enlisted(workers, thread)) == Recorded(workers)
  {
    assert (workers + [WorkerSpec(thread, [], [])])[..|workers|] == workers;
  }

  /** Commands at the back of one queue: recorded beside the others, with what they carry. */
  lemma {:induction false} MoreRecorded(workers: seq<WorkerSpec>, k: nat, w: WorkerSpec, more: seq<Command>)
    requires k < |workers| && w.cmds == workers[k].cmds + more
    ensures forall cmd :: cmd in Recorded(workers[k := w]) <==> cmd in Recorded(workers) || cmd in more
    ensures GivenBy(Recorded(workers[k := w])) == GivenBy(Recorded(workers)) + GivenBy(more)
  {
    hide GivenBy;
    var last := |workers| - 1;
    var front := Recorded(workers[..last]);
    if k == last {
      assert workers[k := w][..last] == workers[..last];
      assert front + (workers[k].cmds + more) == (front + workers[k].cmds) + more;
      GivenConcat(front + workers[k].cmds, more);
    } else {
      MoreRecorded(workers[..last], k, w, more);
      assert workers[k := w][..last] == workers[..last][k := w];
      GivenConcat(front, workers[last].cmds);
      GivenConcat(Recorded(workers[..last][k := w]), workers[last].cmds);
    }
  }

  lemma {:induction false} GivenConcat(a: seq<Command>, b: seq<Command>)
    ensures GivenBy(a + b) == GivenBy(a) + GivenBy(b)
  {
    if b == [] {
      assert a + b == a;
    } else {
      GivenConcat(a, b[..|b| - 1]);
      GivenOneMore(a, b);
    }
  }

  lemma GivenOneMore(a: seq<Command>, b: seq<Command>)
    requires b != [] && GivenBy(a + b[..|b| - 1]) == GivenBy(a) + GivenBy(b[..|b| - 1])
    ensures GivenBy(a + b) == GivenBy(a) + GivenBy(b)
  {
    hide *;
    var front, last := b[..|b| - 1], b[|b| - 1];
    GivenAppend(a + front, last);
    GivenAppend(front, last);
    assert a + b == (a + front) + [last] && b == front + [last];
  }

  /** How one step changes what has lived and what exists. */
  lemma StepLives(op: Operation, s: Snapshot, a: Answer, dropped: seq<Payload>, t: Snapshot)
    requires Means(op, s, a, dropped, t) && Sound(s)
    ensures forall e :: e in t.entities <==> (e in s.entities || e in Births(op, s, a)) && e !in Deaths(op, s, a)
    ensures Deaths(op, s, a) <= s.entities.Keys + Births(op, s, a)
  {
    hide Owners, DistinctSets;
    hide Passes, TriesToSpawn, SetsAside, SameFlags, SpecsGrown, Overlay, Restricted, ApplyAll, Recorded, StoredAll, Payloads, ValuesOf, Returned, D.SomeoneHas, NoneRefused, Enlisted, WithCommand, Objection, Apply, Applied;
    hide BornByAll, KilledByAll, AllocatorState.Ok, PendingOk, AllPending, ReturnedOk, Locked;
    if op.Sync? {
      FlushLives(s);
    } else if op.Perform? && !s.inParallel {
      AppliedLives(s, op.cmd, multiset(dropped + Back(op, a)), t);
    }
  }

  lemma AppliedLives(s: Snapshot, cmd: Command, dropped: multiset<Payload>, t: Snapshot)
    requires Applied(s, cmd, dropped, t) && !cmd.Create?
    ensures var done := Refusal(s.specs, s.entities, cmd) == None;
      && (forall e :: e in t.entities <==> e in s.entities && !(done && e in KilledBy(cmd)))
      && (done ==> KilledBy(cmd) <= s.entities.Keys)
  {
    hide Passes, SameFlags, Refusal, Apply;
    if Refusal(s.specs, s.entities, cmd) == None {
      OneLives(s.specs, s.entities, cmd, s.tick);
    }
  }

  /** What a sync point without refusals leaves: who was there or was created, but for who was destroyed. */
  lemma FlushLives(s: Snapshot)
    requires Sound(s) && NoneRefused(s.specs, s.entities, Recorded(s.workers), s.tick)
    ensures var cmds := Recorded(s.workers);
      && (forall e :: e in ApplyAll(s.entities, cmds, s.tick) <==> (e in s.entities || e in BornByAll(cmds)) && e !in KilledByAll(cmds))
      && KilledByAll(cmds) <= s.entities.Keys + BornByAll(cmds)
  {
    hide Recorded, NoneRefused, ApplyAll, BornByAll, KilledByAll, AllocatorState.Reserves, AllPending;
    forall e
      ensures Created(Recorded(s.workers))[e] <= 1 && (e in Created(Recorded(s.workers)) ==> e !in s.entities)
    {
      RecordedArePending(s.workers, e);
      if e in Created(Recorded(s.workers)) {
        assert e in AllPending(s.workers);
        ReservedIsNotLive(s.allocator, e);
      }
    }
    AllLives(s.specs, s.entities, Recorded(s.workers), s.tick);
  }

  lemma {:induction false} RecordedArePending(workers: seq<WorkerSpec>, e: Entity)
    ensures Created(Recorded(workers))[e] <= AllPending(workers)[e]
  {
    if workers != [] {
      var last := |workers| - 1;
      RecordedArePending(workers[..last], e);
      CreatedConcat(Recorded(workers[..last]), workers[last].cmds);
    }
  }

  lemma {:induction false} CreatedConcat(a: seq<Command>, b: seq<Command>)
    ensures Created(a + b) == Created(a) + Created(b)
  {
    if b == [] {
      assert a + b == a;
    } else {
      var n := |b| - 1;
      assert (a + b)[..|a| + n] == a + b[..n];
      CreatedConcat(a, b[..n]);
    }
  }

  /** Commands that were not refused, and create nobody twice. */
  lemma {:induction false} AllLives(specs: seq<ArchetypeSpec>, m: D.EntityMap, cmds: seq<Command>, tick: Tick)
    requires NoneRefused(specs, m, cmds, tick)
    requires forall e :: Created(cmds)[e] <= 1 && (e in Created(cmds) ==> e !in m)
    ensures forall e :: e in ApplyAll(m, cmds, tick) <==> (e in m || e in BornByAll(cmds)) && e !in KilledByAll(cmds)
    ensures KilledByAll(cmds) <= m.Keys + BornByAll(cmds)
    ensures forall e :: e in BornByAll(cmds) <==> e in Created(cmds)
  {
    hide *;
    if cmds == [] {
      NothingLives(m, tick);
    } else {
      var n := |cmds| - 1;
      NoneRefusedBefore(specs, m, cmds, tick);
      assert cmds == cmds[..n] + [cmds[n]];
      CreatedAppend(cmds[..n], cmds[n]);
      forall e
        ensures Created(cmds[..n])[e] <= Created(cmds)[e]
      {
      }
      AllLives(specs, m, cmds[..n], tick);
      OneMoreLives(specs, m, cmds, tick);
    }
  }

  lemma NothingLives(m: D.EntityMap, tick: Tick)
    ensures ApplyAll(m, [], tick) == m && BornByAll([]) == {} && KilledByAll([]) == {} && Created([]) == multiset{}
  {
  }

  lemma OneMoreLives(specs: seq<ArchetypeSpec>, m: D.EntityMap, cmds: seq<Command>, tick: Tick)
    requires cmds != [] && Refusal(specs, ApplyAll(m, cmds[..|cmds| - 1], tick), cmds[|cmds| - 1]) == None
    requires forall e :: Created(cmds)[e] <= 1 && (e in Created(cmds) ==> e !in m)
    requires var front := cmds[..|cmds| - 1];
      && (forall e :: e in ApplyAll(m, front, tick) <==> (e in m || e in BornByAll(front)) && e !in KilledByAll(front))
      && KilledByAll(front) <= m.Keys + BornByAll(front)
      && (forall e :: e in BornByAll(front) <==> e in Created(front))
    ensures forall e :: e in ApplyAll(m, cmds, tick) <==> (e in m || e in BornByAll(cmds)) && e !in KilledByAll(cmds)
    ensures KilledByAll(cmds) <= m.Keys + BornByAll(cmds)
    ensures forall e :: e in BornByAll(cmds) <==> e in Created(cmds)
  {
    hide Refusal, Apply, Created;
    var front, last := cmds[..|cmds| - 1], cmds[|cmds| - 1];
    assert cmds == front + [last];
    OneLives(specs, ApplyAll(m, front, tick), last, tick);
    CreatedAppend(front, last);
    if last.Create? {
      assert Created(cmds)[last.e] == Created(front)[last.e] + 1;
      assert last.e !in Created(front) && last.e !in m;
    }
  }

  lemma NoneRefusedBefore(specs: seq<ArchetypeSpec>, m: D.EntityMap, cmds: seq<Command>, tick: Tick)
    requires NoneRefused(specs, m, cmds, tick) && cmds != []
    ensures NoneRefused(specs, m, cmds[..|cmds| - 1], tick)
    ensures Refusal(specs, ApplyAll(m, cmds[..|cmds| - 1], tick), cmds[|cmds| - 1]) == None
  {
    hide Refusal, ApplyAll;
    forall k | 0 <= k < |cmds| - 1
      ensures cmds[..|cmds| - 1][..k] == cmds[..k]
    {
    }
  }

  lemma OneLives(specs: seq<ArchetypeSpec>, m: D.EntityMap, cmd: Command, tick: Tick)
    requires Refusal(specs, m, cmd) == None
    ensures forall e :: e in Apply(m, cmd, tick) <==> (e in m || e in BornBy(cmd)) && e !in KilledBy(cmd)
    ensures KilledBy(cmd) <= m.Keys
  {
    hide Overlay, Restricted, Objection, Locked, IsSingleton, D.SomeoneHas;
  }

  /** Between operation `i` and the moment before operation `n` there was a sync point. */
  ghost predicate SyncedBetween(ops: seq<Operation>, i: nat, n: nat) {
    exists j :: i < j < n && j < |ops| && ops[j].Sync?
  }

  /** The program is inside a parallel group before operation `i`. */
  function InGroup(ops: seq<Operation>, i: nat): bool
    requires i <= |ops|
  {
    if i == 0 then false
    else match ops[i - 1]
         case Group(on) => on
         case _ => InGroup(ops, i - 1)
  }

  /** What operation `i` does has taken effect before operation `n`: at once, or at a sync point since. */
  ghost predicate TookEffect(ops: seq<Operation>, i: nat, n: nat)
    requires i < |ops|
  {
    Waits(ops[i], InGroup(ops, i)) ==> SyncedBetween(ops, i, n)
  }

  /** Some operation gave the handle `e` out, and its entity has come into being. */
  ghost predicate Made(tr: Trace, n: nat, e: Entity)
    requires n <= |tr.ops| && |tr.answers| == |tr.ops|
  {
    exists i :: 0 <= i < n && tr.answers[i] == Gave(e) && TookEffect(tr.ops, i, n)
  }

  predicate Kills(op: Operation, a: Answer, e: Entity) {
    op.Perform? && op.cmd == Destroy(e) && a == Fine
  }

  /** Some operation destroyed `e`, and that has taken effect. */
  ghost predicate Killed(tr: Trace, n: nat, e: Entity)
    requires n <= |tr.ops| && |tr.answers| == |tr.ops|
  {
    exists i :: 0 <= i < n && Kills(tr.ops[i], tr.answers[i], e) && TookEffect(tr.ops, i, n)
  }

  /** `cmd` was recorded and no sync point came since. */
  ghost predicate Waiting(tr: Trace, n: nat, cmd: Command)
    requires n <= |tr.ops| && |tr.answers| == |tr.ops|
  {
    exists i :: 0 <= i < n && Waits(tr.ops[i], InGroup(tr.ops, i)) && RecordedBy(tr.ops[i], tr.answers[i]) == Some(cmd) && !SyncedBetween(tr.ops, i, n)
  }

  /** One more operation, seen by who looks back from behind it. */
  lemma SyncedNext(ops: seq<Operation>, i: nat, n: nat)
    requires n < |ops|
    ensures SyncedBetween(ops, i, n + 1) <==> SyncedBetween(ops, i, n) || (i < n && ops[n].Sync?)
  {
  }

  lemma MadeNext(tr: Trace, n: nat, e: Entity)
    requires n < |tr.ops| && |tr.answers| == |tr.ops|
    requires forall i :: 0 <= i < |tr.ops| && tr.answers[i].Gave? ==> tr.ops[i].Spawn? || tr.ops[i].SpawnSingleton?
    requires forall i :: 0 <= i < |tr.ops| && tr.ops[i].Perform? ==> !tr.ops[i].cmd.Create?
    ensures Made(tr, n + 1, e) <==>
      || Made(tr, n, e)
      || (tr.ops[n].Sync? && exists t, val :: Waiting(tr, n, Create(e, t, val)))
      || (!Waits(tr.ops[n], InGroup(tr.ops, n)) && tr.answers[n] == Gave(e))
  {
    hide SyncedBetween, InGroup;
    forall i | 0 <= i <= n
      ensures SyncedBetween(tr.ops, i, n + 1) <==> SyncedBetween(tr.ops, i, n) || (i < n && tr.ops[n].Sync?)
    {
      SyncedNext(tr.ops, i, n);
    }
    NotSyncedYet(tr.ops, n);
    if i :| 0 <= i < n && tr.answers[i] == Gave(e) && TookEffect(tr.ops, i, n) {
      assert TookEffect(tr.ops, i, n + 1);
    }
    if Made(tr, n + 1, e) {
      var i :| 0 <= i < n + 1 && tr.answers[i] == Gave(e) && TookEffect(tr.ops, i, n + 1);
      if i < n && !TookEffect(tr.ops, i, n) {
        var op := tr.ops[i];
        assert RecordedBy(op, tr.answers[i]) == Some(Create(e, op.t, op.val));
        assert Waiting(tr, n, Create(e, op.t, op.val));
      }
    }
    if !Waits(tr.ops[n], InGroup(tr.ops, n)) && tr.answers[n] == Gave(e) {
      assert TookEffect(tr.ops, n, n + 1);
    }
    if tr.ops[n].Sync? && exists t, val :: Waiting(tr, n, Create(e, t, val)) {
      var t, val :| Waiting(tr, n, Create(e, t, val));
      var i :| 0 <= i < n && Waits(tr.ops[i], InGroup(tr.ops, i)) && RecordedBy(tr.ops[i], tr.answers[i]) == Some(Create(e, t, val)) && !SyncedBetween(tr.ops, i, n);
      assert TookEffect(tr.ops, i, n + 1);
    }
  }

  lemma KilledNext(tr: Trace, n: nat, e: Entity)
    requires n < |tr.ops| && |tr.answers| == |tr.ops|
    requires forall i :: 0 <= i < |tr.ops| && Waits(tr.ops[i], InGroup(tr.ops, i)) && tr.ops[i].Perform? ==> tr.answers[i] == Fine
    ensures Killed(tr, n + 1, e) <==>
      || Killed(tr, n, e)
      || (tr.ops[n].Sync? && Waiting(tr, n, Destroy(e)))
      || (!Waits(tr.ops[n], InGroup(tr.ops, n)) && Kills(tr.ops[n], tr.answers[n], e))
  {
    hide SyncedBetween, InGroup;
    forall i | 0 <= i <= n
      ensures SyncedBetween(tr.ops, i, n + 1) <==> SyncedBetween(tr.ops, i, n) || (i < n && tr.ops[n].Sync?)
    {
      SyncedNext(tr.ops, i, n);
    }
    NotSyncedYet(tr.ops, n);
    if i :| 0 <= i < n && Kills(tr.ops[i], tr.answers[i], e) && TookEffect(tr.ops, i, n) {
      assert TookEffect(tr.ops, i, n + 1);
    }
    if tr.ops[n].Sync? && Waiting(tr, n, Destroy(e)) {
      var i :| 0 <= i < n && Waits(tr.ops[i], InGroup(tr.ops, i)) && RecordedBy(tr.ops[i], tr.answers[i]) == Some(Destroy(e)) && !SyncedBetween(tr.ops, i, n);
      assert Kills(tr.ops[i], tr.answers[i], e) && TookEffect(tr.ops, i, n + 1);
    }
  }

  lemma WaitingNext(tr: Trace, n: nat, cmd: Command)
    requires n < |tr.ops| && |tr.answers| == |tr.ops|
    ensures Waiting(tr, n + 1, cmd) <==>
      !tr.ops[n].Sync? && (Waiting(tr, n, cmd) || (Waits(tr.ops[n], InGroup(tr.ops, n)) && RecordedBy(tr.ops[n], tr.answers[n]) == Some(cmd)))
  {
    hide SyncedBetween, InGroup;
    forall i | 0 <= i <= n
      ensures SyncedBetween(tr.ops, i, n + 1) <==> SyncedBetween(tr.ops, i, n) || (i < n && tr.ops[n].Sync?)
    {
      SyncedNext(tr.ops, i, n);
    }
    NotSyncedYet(tr.ops, n);
    if Waiting(tr, n, cmd) && !tr.ops[n].Sync? {
      var i :| 0 <= i < n && Waits(tr.ops[i], InGroup(tr.ops, i)) && RecordedBy(tr.ops[i], tr.answers[i]) == Some(cmd) && !SyncedBetween(tr.ops, i, n);
      assert !SyncedBetween(tr.ops, i, n + 1);
    }
    if Waiting(tr, n + 1, cmd) {
      var i :| 0 <= i < n + 1 && Waits(tr.ops[i], InGroup(tr.ops, i)) && RecordedBy(tr.ops[i], tr.answers[i]) == Some(cmd) && !SyncedBetween(tr.ops, i, n + 1);
      assert i < n ==> !SyncedBetween(tr.ops, i, n) && !tr.ops[n].Sync?;
    }
  }

  // ---------------------------------------------------------------------------------------------
  // Programs from the start
  // ---------------------------------------------------------------------------------------------

  /** Nothing has happened yet. */
  ghost predicate Blank(s: Snapshot) {
    && s.entities == map[] && s.stored == multiset{} && s.specs == [] && s.allocator == AllocatorState([], [], {}, {})
    && s.workers == [] && !s.inParallel && s.returned == {}
  }

  /** What is queued is what the program recorded since its last sync point, and the parallel flag is the program's. */
  lemma {:induction false} QueuesAreWaiting(tr: Trace, n: nat)
    requires Follows(tr) && Blank(tr.states[0]) && n <= |tr.ops|
    ensures tr.states[n].inParallel == InGroup(tr.ops, n)
    ensures forall cmd :: cmd in Recorded(tr.states[n].workers) <==> Waiting(tr, n, cmd)
  {
    hide Means, Sound, Waiting;
    if n == 0 {
      NothingWaits(tr);
    } else {
      QueuesAreWaiting(tr, n - 1);
      StepFlag(tr.ops[n - 1], tr.states[n - 1], tr.answers[n - 1], tr.drops[n - 1], tr.states[n]);
      forall cmd
        ensures cmd in Recorded(tr.states[n].workers) <==> Waiting(tr, n, cmd)
      {
        StepRecords(tr.ops[n - 1], tr.states[n - 1], tr.answers[n - 1], tr.drops[n - 1], tr.states[n], cmd);
        WaitingNext(tr, n - 1, cmd);
      }
    }
  }

  /** The commands that wait at a thread. */
  function QueueOf(workers: seq<WorkerSpec>, thread: nat): seq<Command> {
    var k := WorkerOf(workers, thread);
    if k < |workers| then workers[k].cmds else []
  }

  function ThreadsOf(workers: seq<WorkerSpec>): (threads: seq<nat>)
    ensures |threads| == |workers| && forall i :: 0 <= i < |threads| ==> threads[i] == workers[i].thread
  {
    seq(|workers|, i requires 0 <= i < |workers| => workers[i].thread)
  }

  /** What the program recorded on a thread since its last sync point, in the order it did. */
  function Line(tr: Trace, n: nat, thread: nat): seq<Command>
    requires n <= |tr.ops| == |tr.answers|
  {
    if n == 0 || tr.ops[n - 1].Sync? then []
    else
      var op, recorded := tr.ops[n - 1], RecordedBy(tr.ops[n - 1], tr.answers[n - 1]);
      Line(tr, n - 1, thread) + if Waits(op, InGroup(tr.ops, n - 1)) && op.thread == thread && recorded.Some? then [recorded.value] else []
  }

  /** The threads with a worker, in the order they first came up. */
  function Threads(ops: seq<Operation>, n: nat): seq<nat>
    requires n <= |ops|
  {
    if n == 0 then []
    else
      var before, op := Threads(ops, n - 1), ops[n - 1];
      if (op.WarmUp? || Waits(op, InGroup(ops, n - 1))) && op.thread !in before then before + [op.thread] else before
  }

  /** The lines of the first `m` threads, one behind the other. */
  function Lines(tr: Trace, n: nat, m: nat): seq<Command>
    requires n <= |tr.ops| == |tr.answers| && m <= |Threads(tr.ops, n)|
  {
    if m == 0 then [] else Lines(tr, n, m - 1) + Line(tr, n, Threads(tr.ops, n)[m - 1])
  }

  lemma WorkerByThreads(ws: seq<WorkerSpec>, vs: seq<WorkerSpec>, thread: nat)
    ensures WorkerOf(ws, thread) < |ws| <==> thread in ThreadsOf(ws)
    ensures ThreadsOf(ws) == ThreadsOf(vs) ==> WorkerOf(ws, thread) == WorkerOf(vs, thread)
  {
    var k := WorkerOf(ws, thread);
    if thread in ThreadsOf(ws) {
      var i :| 0 <= i < |ws| && ThreadsOf(ws)[i] == thread;
    }
    if k < |ws| {
      assert ThreadsOf(ws)[k] == thread;
    }
    if ThreadsOf(ws) == ThreadsOf(vs) {
      var j := WorkerOf(vs, thread);
      assert j < |vs| ==> ThreadsOf(vs)[j] == thread && ws[j].thread == thread;
      assert k < |ws| ==> vs[k].thread == thread;
    }
  }

  /** A new worker has nothing to do yet. */
  lemma NewWorkerQueues(ws: seq<WorkerSpec>, own: nat, thread: nat)
    requires own !in ThreadsOf(ws)
    ensures var more := ws + [WorkerSpec(own, [], [])];
      QueueOf(more, thread) == QueueOf(ws, thread) && ThreadsOf(more) == ThreadsOf(ws) + [own] && WorkerOf(more, own) == |ws|
  {
    hide WorkerOf;
    var more := ws + [WorkerSpec(own, [], [])];
    WorkerByThreads(ws, ws, thread);
    WorkerByThreads(ws, ws, own);
    assert forall i :: 0 <= i < |ws| ==> more[i] == ws[i] && ThreadsOf(ws)[i] == ws[i].thread;
    var j, k := WorkerOf(ws, thread), WorkerOf(more, thread);
    assert j < |ws| ==> more[j].thread == thread && k == j;
    assert j == |ws| ==> k >= |ws|;
    assert WorkerOf(more, own) <= |ws| by { assert more[|ws|].thread == own; }
  }

  lemma EnlistedQueues(ws: seq<WorkerSpec>, own: nat, thread: nat)
    ensures QueueOf(Enlisted(ws, own), thread) == QueueOf(ws, thread)
    ensures ThreadsOf(Enlisted(ws, own)) == if own in ThreadsOf(ws) then ThreadsOf(ws) else ThreadsOf(ws) + [own]
    ensures WorkerOf(Enlisted(ws, own), own) == WorkerOf(ws, own) < |Enlisted(ws, own)|
  {
    hide WorkerOf, QueueOf, ThreadsOf;
    WorkerByThreads(ws, ws, own);
    if own !in ThreadsOf(ws) {
      NewWorkerQueues(ws, own, thread);
    }
  }

  /** New commands at the back of one thread's queue. */
  lemma UpdatedQueues(ws: seq<WorkerSpec>, own: nat, w: WorkerSpec, thread: nat)
    requires WorkerOf(ws, own) < |ws| && w.thread == own
    ensures var vs := ws[WorkerOf(ws, own) := w];
      ThreadsOf(vs) == ThreadsOf(ws) && QueueOf(vs, thread) == if thread == own then w.cmds else QueueOf(ws, thread)
  {
    var vs := ws[WorkerOf(ws, own) := w];
    assert ThreadsOf(vs) == ThreadsOf(ws);
    WorkerByThreads(ws, vs, thread);
  }

  lemma EmptiedQueues(ws: seq<WorkerSpec>, thread: nat)
    ensures ThreadsOf(Emptied(ws)) == ThreadsOf(ws) && QueueOf(Emptied(ws), thread) == []
  {
  }

  /** One step appends to one queue, or empties them all. */
  lemma StepQueues(op: Operation, s: Snapshot, a: Answer, dropped: seq<Payload>, t: Snapshot, thread: nat)
    requires Means(op, s, a, dropped, t)
    ensures QueueOf(t.workers, thread) ==
      if op.Sync? then []
      else QueueOf(s.workers, thread)
           + if Waits(op, s.inParallel) && op.thread == thread && RecordedBy(op, a).Some? then [RecordedBy(op, a).value] else []
    ensures ThreadsOf(t.workers) ==
      if (op.WarmUp? || Waits(op, s.inParallel)) && op.thread !in ThreadsOf(s.workers) then ThreadsOf(s.workers) + [op.thread] else ThreadsOf(s.workers)
  {
    hide Passes, TriesToSpawn, SetsAside, SameFlags, SpecsGrown, OneMore, Overlay, Apply, ApplyAll, Recorded, StoredAll, Payloads, ValuesOf, Returned, D.SomeoneHas, NoneRefused, Refusal, Emptied, EditedCells;
    hide QueueOf, ThreadsOf, Enlisted, WorkerOf;
    if op.WarmUp? || Waits(op, s.inParallel) {
      var ws := Enlisted(s.workers, op.thread);
      EnlistedQueues(s.workers, op.thread, thread);
      EnlistedQueues(s.workers, op.thread, op.thread);
      if !op.WarmUp? {
        assert t.workers == ws[WorkerOf(s.workers, op.thread) := t.workers[WorkerOf(s.workers, op.thread)]];
        WorkerAt(ws, op.thread);
        UpdatedQueues(ws, op.thread, t.workers[WorkerOf(s.workers, op.thread)], thread);
      }
    } else if op.Sync? {
      EmptiedQueues(s.workers, thread);
    }
  }

  lemma WorkerAt(ws: seq<WorkerSpec>, thread: nat)
    requires WorkerOf(ws, thread) < |ws|
    ensures ws[WorkerOf(ws, thread)].thread == thread && QueueOf(ws, thread) == ws[WorkerOf(ws, thread)].cmds
  {
  }

  /**
    On every program each thread's queue holds what the program recorded there since the last sync
    point, first in first out, and a sync point takes the threads in the order they first came up.
   */
  lemma {:induction false} QueuesInOrder(tr: Trace, n: nat)
    requires Follows(tr) && Blank(tr.states[0]) && n <= |tr.ops|
    ensures ThreadsOf(tr.states[n].workers) == Threads(tr.ops, n) && Distinct(Threads(tr.ops, n))
    ensures forall thread :: QueueOf(tr.states[n].workers, thread) == Line(tr, n, thread)
    ensures Recorded(tr.states[n].workers) == Lines(tr, n, |Threads(tr.ops, n)|)
  {
    hide Means, Sound, QueueOf, ThreadsOf, Lines, Recorded;
    if n == 0 {
      NoQueues(tr);
    } else {
      QueuesInOrder(tr, n - 1);
      QueuesAreWaiting(tr, n - 1);
      forall thread: nat
        ensures QueueOf(tr.states[n].workers, thread) == Line(tr, n, thread)
        ensures ThreadsOf(tr.states[n].workers) == Threads(tr.ops, n)
      {
        StepQueues(tr.ops[n - 1], tr.states[n - 1], tr.answers[n - 1], tr.drops[n - 1], tr.states[n], thread);
      }
      assert ThreadsOf(tr.states[n].workers) == Threads(tr.ops, n) by {
        StepQueues(tr.ops[n - 1], tr.states[n - 1], tr.answers[n - 1], tr.drops[n - 1], tr.states[n], 0);
      }
    }
    RecordedIsLines(tr, n, tr.states[n].workers, |Threads(tr.ops, n)|);
  }

  lemma NoQueues(tr: Trace)
    requires |tr.answers| == |tr.ops| && |tr.states| > 0 && Blank(tr.states[0])
    ensures ThreadsOf(tr.states[0].workers) == [] && forall thread :: QueueOf(tr.states[0].workers, thread) == []
  {
  }

  lemma {:induction false} RecordedIsLines(tr: Trace, n: nat, workers: seq<WorkerSpec>, m: nat)
    requires n <= |tr.ops| == |tr.answers| && ThreadsOf(workers) == Threads(tr.ops, n) && Distinct(Threads(tr.ops, n)) && m <= |workers|
    requires forall thread :: QueueOf(workers, thread) == Line(tr, n, thread)
    ensures m <= |Threads(tr.ops, n)| && Recorded(workers[..m]) == Lines(tr, n, m)
    ensures m == |workers| ==> Recorded(workers) == Lines(tr, n, m)
  {
    hide Line, Threads;
    assert |ThreadsOf(workers)| == |workers|;
    if m > 0 {
      RecordedIsLines(tr, n, workers, m - 1);
      assert workers[..m][..m - 1] == workers[..m - 1];
      var own := workers[m - 1].thread;
      assert ThreadsOf(workers)[m - 1] == own;
      WorkerByThreads(workers, workers, own);
      assert ThreadsOf(workers)[WorkerOf(workers, own)] == own;
      assert QueueOf(workers, own) == workers[m - 1].cmds;
    }
    assert workers[..|workers|] == workers;
  }

  lemma NothingWaits(tr: Trace)
    requires |tr.answers| == |tr.ops|
    ensures forall cmd :: !Waiting(tr, 0, cmd)
    ensures forall e :: !Made(tr, 0, e) && !Killed(tr, 0, e)
  {
  }

  lemma StepFlag(op: Operation, s: Snapshot, a: Answer, dropped: seq<Payload>, t: Snapshot)
    requires Means(op, s, a, dropped, t)
    ensures t.inParallel == match op case Group(on) => on case _ => s.inParallel
    ensures a.Gave? ==> op.Spawn? || op.SpawnSingleton?
    ensures op.Perform? ==> !op.cmd.Create? && (s.inParallel ==> a == Fine)
  {
    hide Passes, TriesToSpawn, SetsAside, SameFlags, SpecsGrown, Overlay, Apply, ApplyAll, Recorded, Payloads, ValuesOf, Returned, D.SomeoneHas, NoneRefused, Refusal, Enlisted, WithCommand, Emptied;
  }

  lemma FlagsAndAnswers(tr: Trace)
    requires Follows(tr) && Blank(tr.states[0])
    ensures forall i :: 0 <= i < |tr.ops| && tr.answers[i].Gave? ==> tr.ops[i].Spawn? || tr.ops[i].SpawnSingleton?
    ensures forall i :: 0 <= i < |tr.ops| && Waits(tr.ops[i], InGroup(tr.ops, i)) && tr.ops[i].Perform? ==> tr.answers[i] == Fine
    ensures forall i :: 0 <= i < |tr.ops| && tr.ops[i].Perform? ==> !tr.ops[i].cmd.Create?
  {
    hide Means, Sound, InGroup;
    forall i | 0 <= i < |tr.ops|
      ensures tr.answers[i].Gave? ==> tr.ops[i].Spawn? || tr.ops[i].SpawnSingleton?
      ensures tr.ops[i].Perform? ==> !tr.ops[i].cmd.Create? && (Waits(tr.ops[i], InGroup(tr.ops, i)) ==> tr.answers[i] == Fine)
    {
      QueuesAreWaiting(tr, i);
      StepFlag(tr.ops[i], tr.states[i], tr.answers[i], tr.drops[i], tr.states[i + 1]);
    }
  }

  /** Births and deaths of a step, told by the program. */
  lemma StepInProgram(tr: Trace, n: nat, e: Entity)
    requires Follows(tr) && Blank(tr.states[0]) && n < |tr.ops|
    ensures Made(tr, n + 1, e) <==> Made(tr, n, e) || e in Births(tr.ops[n], tr.states[n], tr.answers[n])
    ensures Killed(tr, n + 1, e) <==> Killed(tr, n, e) || e in Deaths(tr.ops[n], tr.states[n], tr.answers[n])
  {
    hide Means, Sound, InGroup, Waiting, Made, Killed, BornByAll, KilledByAll, Recorded;
    QueuesAreWaiting(tr, n);
    FlagsAndAnswers(tr);
    MadeNext(tr, n, e);
    KilledNext(tr, n, e);
    ByOneOfAll(Recorded(tr.states[n].workers), e);
    StepFlag(tr.ops[n], tr.states[n], tr.answers[n], tr.drops[n], tr.states[n + 1]);
  }

  lemma {:induction false} ByOneOfAll(cmds: seq<Command>, e: Entity)
    ensures e in BornByAll(cmds) <==> exists t, val :: Create(e, t, val) in cmds
    ensures e in KilledByAll(cmds) <==> Destroy(e) in cmds
  {
    if cmds != [] {
      var n := |cmds| - 1;
      ByOneOfAll(cmds[..n], e);
      assert cmds == cmds[..n] + [cmds[n]];
      if cmds[n].Create? && cmds[n].e == e {
        assert Create(e, cmds[n].t, cmds[n].val) in cmds;
      }
    }
  }

  /**
    On every program an entity exists exactly when the program created it, at once or at a sync point
    since, and has not destroyed it, at once or at a sync point since.
   */
  lemma {:induction false} ExistsIffMadeAndNotKilled(tr: Trace, n: nat, e: Entity)
    requires Follows(tr) && Blank(tr.states[0]) && n <= |tr.ops|
    ensures e in tr.states[n].entities <==> Made(tr, n, e) && !Killed(tr, n, e)
    ensures e in tr.states[n].allocator.lived <==> Made(tr, n, e)
    ensures Killed(tr, n, e) ==> Made(tr, n, e)
  {
    hide Means, Sound, Made, Killed, Births, Deaths;
    if n == 0 {
      NothingWaits(tr);
    } else {
      var op, s, a, t := tr.ops[n - 1], tr.states[n - 1], tr.answers[n - 1], tr.states[n];
      ExistsIffMadeAndNotKilled(tr, n - 1, e);
      StepInProgram(tr, n - 1, e);
      StepLives(op, s, a, tr.drops[n - 1], t);
      StepOutlives(op, s, a, tr.drops[n - 1], t);
    }
  }

  lemma NotSyncedYet(ops: seq<Operation>, n: nat)
    ensures !SyncedBetween(ops, n, n) && !SyncedBetween(ops, n, n + 1)
  {
  }

  // ---------------------------------------------------------------------------------------------
  // Where the values go
  // ---------------------------------------------------------------------------------------------

  function AllGiven(ops: seq<Operation>): multiset<Payload> {
    if ops == [] then multiset{} else AllGiven(ops[..|ops| - 1]) + ops[|ops| - 1].Given()
  }

  function AllDropped(drops: seq<seq<Payload>>): multiset<Payload> {
    if drops == [] then multiset{} else AllDropped(drops[..|drops| - 1]) + multiset(drops[|drops| - 1])
  }

  function AllBack(ops: seq<Operation>, answers: seq<Answer>): multiset<Payload>
    requires |answers| == |ops|
  {
    if ops == [] then multiset{}
    else AllBack(ops[..|ops| - 1], answers[..|ops| - 1]) + multiset(Back(ops[|ops| - 1], answers[|ops| - 1]))
  }

  /** The values stored, and those that recorded commands still carry. */
  function Kept(s: Snapshot): multiset<Payload> {
    s.stored + GivenBy(Recorded(s.workers))
  }

  /** What one operation is given is kept, dropped or handed back, beside what was kept before. */
  lemma StepConserves(op: Operation, s: Snapshot, a: Answer, dropped: seq<Payload>, t: Snapshot)
    requires Means(op, s, a, dropped, t)
    ensures Kept(t) + multiset(dropped) + multiset(Back(op, a)) == Kept(s) + op.Given()
  {
    if op.Sync? || op.WarmUp? || Waits(op, s.inParallel) {
      QueueStepConserves(op, s, a, dropped, t);
    } else {
      hide *;
      WorldStepConserves(op, s, a, dropped, t);
      SameQueues(s, t, multiset(dropped), multiset(Back(op, a)), op.Given());
    }
  }

  lemma SameQueues(s: Snapshot, t: Snapshot, dropped: multiset<Payload>, back: multiset<Payload>, given: multiset<Payload>)
    requires t.workers == s.workers && t.stored + dropped + back == s.stored + given
    ensures Kept(t) + dropped + back == Kept(s) + given
  {
    hide Recorded, GivenBy;
    var waiting := GivenBy(Recorded(s.workers));
    assert Kept(t) + dropped + back == (t.stored + dropped + back) + waiting;
    assert Kept(s) + given == (s.stored + given) + waiting;
  }

  lemma WorldStepConserves(op: Operation, s: Snapshot, a: Answer, dropped: seq<Payload>, t: Snapshot)
    requires Means(op, s, a, dropped, t) && !op.Sync? && !op.WarmUp? && !Waits(op, s.inParallel)
    ensures t.workers == s.workers && t.stored + multiset(dropped) + multiset(Back(op, a)) == s.stored + op.Given()
  {
    hide Passes, TriesToSpawn, SameFlags, SpecsGrown, Overlay, Apply, Payloads, ValuesOf, Returned, D.SomeoneHas, Refusal, Command.Given, Deferred, Flushed, Enlisted, WithCommand;
    assert multiset(dropped + Back(op, a)) == multiset(dropped) + multiset(Back(op, a));
  }

  lemma QueueStepConserves(op: Operation, s: Snapshot, a: Answer, dropped: seq<Payload>, t: Snapshot)
    requires Means(op, s, a, dropped, t) && (op.Sync? || op.WarmUp? || Waits(op, s.inParallel))
    ensures Kept(t) + multiset(dropped) + multiset(Back(op, a)) == Kept(s) + op.Given()
  {
    hide Passes, SetsAside, SameFlags, Apply, ApplyAll, Recorded, Payloads, ValuesOf, Returned, NoneRefused, Refusal, Enlisted, WithCommand, GivenBy, Command.Given, Deferred, BornByAll, RoomMadeByAll;
    match op
    case Spawn(thread, bt, val) => DeferringConserves(s, thread, bt, val, NewHandle(a), t);
    case Perform(thread, cmd) => WithCommandConserves(s.workers, thread, cmd);
    case WarmUp(thread) => EnlistedRecords(s.workers, thread);
    case Sync =>
      NothingRecorded(Emptied(s.workers));
      NothingGiven();
  }

  lemma NothingGiven()
    ensures GivenBy([]) == multiset{}
  {
  }

  lemma OneGiven(cmd: Command)
    ensures GivenBy([cmd]) == cmd.Given()
  {
    GivenAppend([], cmd);
    assert [] + [cmd] == [cmd];
  }

  lemma DeferringConserves(s: Snapshot, thread: nat, bt: BundleType, val: Bundle, born: Option<Entity>, t: Snapshot)
    requires Deferred(s, thread, bt, val, born, t)
    ensures Kept(t) == Kept(s) + if born.Some? then multiset(Payloads(val)) else multiset{}
  {
    hide SetsAside, Recorded, GivenBy, Payloads;
    var ws, k := Enlisted(s.workers, thread), WorkerOf(s.workers, thread);
    EnlistedRecords(s.workers, thread);
    match born {
      case Some(e) =>
        MoreRecorded(ws, k, t.workers[k], [Create(e, bt, val)]);
        OneGiven(Create(e, bt, val));
      case None =>
        MoreRecorded(ws, k, t.workers[k], []);
        NothingGiven();
    }
  }

  lemma WithCommandConserves(workers: seq<WorkerSpec>, thread: nat, cmd: Command)
    ensures GivenBy(Recorded(WithCommand(workers, thread, cmd))) == GivenBy(Recorded(workers)) + cmd.Given()
  {
    hide Recorded, GivenBy, Command.Given;
    var ws, k := Enlisted(workers, thread), WorkerOf(workers, thread);
    EnlistedRecords(workers, thread);
    var w := ws[k].(cmds := ws[k].cmds + [cmd]);
    MoreRecorded(ws, k, w, [cmd]);
    assert WithCommand(workers, thread, cmd) == ws[k := w];
    OneGiven(cmd);
  }

  /** Along every run, the values given so far and those there at first are stored, recorded, dropped or handed back, each as often. */
  lemma {:induction false} ValuesAreConserved(tr: Trace, n: nat)
    requires Follows(tr) && n <= |tr.ops|
    ensures Kept(tr.states[n]) + AllDropped(tr.drops[..n]) + AllBack(tr.ops[..n], tr.answers[..n]) == Kept(tr.states[0]) + AllGiven(tr.ops[..n])
  {
    hide Means, Sound, Kept, Back, Operation.Given;
    if n > 0 {
      var i := n - 1;
      ValuesAreConserved(tr, i);
      StepConserves(tr.ops[i], tr.states[i], tr.answers[i], tr.drops[i], tr.states[n]);
      assert tr.ops[..n][..i] == tr.ops[..i] && tr.drops[..n][..i] == tr.drops[..i] && tr.answers[..n][..i] == tr.answers[..i];
      ConservedTwice(Kept(tr.states[0]), Kept(tr.states[i]), Kept(tr.states[n]), AllDropped(tr.drops[..i]) + AllBack(tr.ops[..i], tr.answers[..i]),
                     multiset(tr.drops[i]) + multiset(Back(tr.ops[i], tr.answers[i])), AllGiven(tr.ops[..i]), tr.ops[i].Given());
    }
  }

  /** Along every run the values stored are those the entities hold, each as often as entities hold it. */
  lemma StoredIsHeldAlong(tr: Trace, n: nat)
    requires Follows(tr) && n <= |tr.ops|
    ensures forall p :: tr.states[n].stored[p] == |Owners(tr.states[n].entities, p)|
  {
    hide Means, Owners;
    assert Sound(tr.states[n]);
  }

  lemma ConservedTwice(a: multiset<Payload>, b: multiset<Payload>, c: multiset<Payload>, gone: multiset<Payload>, gone': multiset<Payload>,
                       given: multiset<Payload>, given': multiset<Payload>)
    requires b + gone == a + given && c + gone' == b + given'
    ensures c + (gone + gone') == a + (given + given')
  {
    assert c + (gone + gone') == (c + gone') + gone;
    assert (b + given') + gone == (b + gone) + given';
  }

  /**
    A whole life: any program on a new world, and the drop of the world at the end. Each value that
    was given is dropped in place, handed back, or goes with a command that was never flushed.
   */
  method RunAndDrop(ops: seq<Operation>) returns (answers: seq<Answer>, drops: seq<seq<Payload>>, rest: seq<Payload>, ghost tr: Trace)
    requires forall op :: op in ops ==> op.WellFormed()
    ensures |answers| <= |ops| && tr.ops == ops[..|answers|] && tr.answers == answers && tr.drops == drops && Follows(tr) && Blank(tr.states[0])
    ensures |answers| < |ops| ==> MayStop(ops[|answers|], tr.states[|answers|])
    ensures |answers| == |ops| ==>
      AllDropped(drops) + AllBack(ops, answers) + multiset(rest) + GivenBy(Recorded(tr.states[|ops|].workers)) == AllGiven(ops)
    ensures |answers| == |ops| && ops != [] && ops[|ops| - 1].Sync? ==> Recorded(tr.states[|ops|].workers) == []
  {
    hide *;
    var c := Begin();
    ghost var states;
    answers, drops, states := Run(c, ops);
    tr, rest := Trace(ops[..|answers|], answers, drops, states), [];
    if |answers| == |ops| {
      assert ops[..|answers|] == ops;
      FollowsLengths(tr);
      ValuesAreConserved(tr, |ops|);
      assert tr.ops[..|ops|] == ops && tr.answers[..|ops|] == answers && tr.drops[..|ops|] == drops;
      LastSync(tr);
      rest := Drop(c);
      DropConserves(states[0], states[|ops|], AllDropped(drops), AllBack(ops, answers), multiset(rest), AllGiven(ops));
    }
  }

  method Begin() returns (c: Cmd)
    ensures fresh(c) && fresh(c.world) && fresh(c.world.allocator) && fresh(c.world.Repr)
    ensures c.Valid() && c.world.Ticking() && Blank(c.Seen())
  {
    hide World.Valid, World.HeapOk, World.Housed, AllocatorState.Ok, PendingOk, ReturnedOk, DistinctThreads, CommandsOk;
    var w := new World();
    NothingStoredInAll();
    c := new Cmd(w);
  }

  method Drop(c: Cmd) returns (rest: seq<Payload>)
    requires c.Valid()
    modifies c.world.Repr
    ensures multiset(rest) == old(c.Seen()).stored
  {
    hide World.HeapOk, World.Storages, StoredAll, AllocatorState.Ok, PendingOk, ReturnedOk, DistinctThreads, CommandsOk, RegistryOk, EdgesOk, D.Located;
    rest := c.world.Dispose();
  }

  lemma FollowsLengths(tr: Trace)
    requires Follows(tr)
    ensures |tr.answers| == |tr.ops| && |tr.drops| == |tr.ops| && |tr.states| == |tr.ops| + 1
  {
  }

  lemma NothingStoredInAll()
    ensures StoredAll([]) == multiset{}
  {
  }

  lemma LastSync(tr: Trace)
    requires Follows(tr)
    ensures tr.ops != [] && tr.ops[|tr.ops| - 1].Sync? ==> Recorded(tr.states[|tr.ops|].workers) == []
  {
    hide Sound, Passes, NoneRefused, Recorded, GivenBy, ApplyAll, BornByAll, RoomMadeByAll;
    if tr.ops != [] && tr.ops[|tr.ops| - 1].Sync? {
      var n := |tr.ops| - 1;
      assert Means(tr.ops[n], tr.states[n], tr.answers[n], tr.drops[n], tr.states[n + 1]);
      NothingRecorded(Emptied(tr.states[n].workers));
    }
  }

  lemma DropConserves(s: Snapshot, t: Snapshot, dropped: multiset<Payload>, back: multiset<Payload>, rest: multiset<Payload>, given: multiset<Payload>)
    requires Blank(s) && Kept(t) + dropped + back == Kept(s) + given && rest == t.stored
    ensures dropped + back + rest + GivenBy(Recorded(t.workers)) == given
  {
    var waiting := GivenBy(Recorded(t.workers));
    assert Kept(s) == multiset{};
    assert t.stored + waiting + dropped + back == dropped + back + t.stored + waiting;
    assert Kept(s) + given == given;
  }

  /** One event of the clock: the tick that it stamps or hands out, and the window it gets. */
  method RunEvent(w: World, event: T.Event) returns (stamp: Tick, window: T.Window)
    requires w.Ticking()
    modifies w`tick, w`now, w`lastQueryTick, w`lastQuery
    ensures w.Ticking() && w.now == old(w.now) + if event.Write? then 0 else 1
    ensures w.lastQuery == if event.Query? then old(w.now) else old(w.lastQuery)
    ensures event.Write? || event.Capture? ==> stamp == T.TickOf(old(w.now))
    ensures event.Query? ==> window == T.Window(T.TickOf(old(w.lastQuery)), T.TickOf(old(w.now) + 1))
    ensures event.QuerySince? ==> window == T.Window(event.baseline, T.TickOf(old(w.now) + 1))
  {
    stamp, window := w.tick, T.Window(0, w.tick);
    match event {
      case Write =>
      case Query => window := w.CreateQuery();
      case QuerySince(baseline) => window := w.CreateQuerySince(baseline);
      case Capture => stamp := w.CaptureCurrentTick();
      case Advance => var _ := w.AdvanceTick();
    }
  }

  /**
    A world whose clock goes through any mix of events: every write is stamped, every capture hands
    out, and every query gets the window, that the history assigns to it.
   */
  method RunEvents(w: World, events: seq<T.Event>) returns (stamps: seq<Tick>, windows: seq<T.Window>)
    requires w.Ticking() && w.lastQuery == 0
    modifies w`tick, w`now, w`lastQueryTick, w`lastQuery
    ensures w.Ticking() && w.now == T.TimeAt(events, old(w.now), |events|)
    ensures |stamps| == |windows| == |events|
    ensures forall j :: 0 <= j < |events| ==> T.Tells(events, old(w.now), j, stamps[j], windows[j])
  {
    stamps, windows := [], [];
    for i := 0 to |events|
      invariant w.Ticking() && w.now == T.TimeAt(events, old(w.now), i) && w.lastQuery == T.BaselineAt(events, old(w.now), i)
      invariant |stamps| == |windows| == i
      invariant forall j :: 0 <= j < i ==> T.Tells(events, old(w.now), j, stamps[j], windows[j])
    {
      var stamp, window := RunEvent(w, events[i]);
      stamps, windows := stamps + [stamp], windows + [window];
    }
  }
}
