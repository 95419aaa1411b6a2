/**
  Jobs that share memory byte by byte. A job is a deterministic program: what it does next depends
  on what it read so far. When nobody writes what another touches, every interleaving ends like
  every other, in particular like running the jobs one after another.
 */
module Interleavings {
  import opened Prelude
  import opened Bytes

  /** A byte of a chunk. */
  datatype Address = Address(arch: nat, chunk: nat, offset: nat)

  type Memory = map<Address, byte>

  function Load(m: Memory, a: Address): byte {
    if a in m then m[a] else 0
  }

  datatype Action = Read(at: Address) | Write(at: Address, value: byte) | Done

  /** From the bytes read and written so far to the next action. */
  type Job = seq<byte> -> Action

  datatype State = State(memory: Memory, histories: seq<seq<byte>>)

  /** One step of one job against the memory. */
  function Advance(job: Job, memory: Memory, history: seq<byte>): (Memory, seq<byte>) {
    match job(history)
    case Read(a) => (memory, history + [Load(memory, a)])
    case Write(a, v) => (memory[a := v], history + [v])
    case Done => (memory, history)
  }

  function StepOf(jobs: seq<Job>, s: State, i: nat): State
    requires i < |jobs| == |s.histories|
  {
    var (memory, history) := Advance(jobs[i], s.memory, s.histories[i]);
    State(memory, s.histories[i := history])
  }

  ghost predicate IsSchedule(jobs: seq<Job>, schedule: seq<nat>) {
    forall k :: 0 <= k < |schedule| ==> schedule[k] < |jobs|
  }

  function Start(jobs: seq<Job>, memory: Memory): (s: State)
    ensures |s.histories| == |jobs|
  {
    State(memory, seq(|jobs|, _ => []))
  }

  /** The jobs run interleaved in the order of the schedule. */
  function Interleave(jobs: seq<Job>, memory: Memory, schedule: seq<nat>): (s: State)
    requires IsSchedule(jobs, schedule)
    ensures |s.histories| == |jobs|
  {
    if schedule == [] then Start(jobs, memory)
    else StepOf(jobs, Interleave(jobs, memory, schedule[..|schedule| - 1]), schedule[|schedule| - 1])
  }

  /** One job alone for `n` steps. */
  function Alone(job: Job, memory: Memory, n: nat): (Memory, seq<byte>) {
    if n == 0 then (memory, [])
    else var (m, h) := Alone(job, memory, n - 1); Advance(job, m, h)
  }

  function StepsOf(schedule: seq<nat>, i: nat): nat {
    if schedule == [] then 0
    else StepsOf(schedule[..|schedule| - 1], i) + if schedule[|schedule| - 1] == i then 1 else 0
  }

  // ---------------------------------------------------------------------------------------------
  // Footprints
  // ---------------------------------------------------------------------------------------------

  datatype Footprint = Footprint(touches: iset<Address>, writes: iset<Address>)

  /** The job reads and writes inside its footprint, whatever it has read. */
  ghost predicate StaysWithin(job: Job, f: Footprint) {
    forall h :: match job(h)
      case Read(a) => a in f.touches
      case Write(a, _) => a in f.writes && a in f.touches
      case Done => true
  }

  /** Nobody writes what another touches. */
  ghost predicate Independent(footprints: seq<Footprint>) {
    forall i, j :: 0 <= i < |footprints| && 0 <= j < |footprints| && i != j ==> footprints[i].writes !! footprints[j].touches
  }

  /** Job `i` has seen what it would have seen alone, and its part of the memory is what it would have made of it. */
  ghost predicate AsAlone(job: Job, f: Footprint, memory: Memory, n: nat, now: Memory, history: seq<byte>) {
    var (m, h) := Alone(job, memory, n);
    history == h && forall a :: a in f.touches ==> Load(now, a) == Load(m, a)
  }

  lemma StartAsAlone(job: Job, f: Footprint, memory: Memory)
    ensures AsAlone(job, f, memory, 0, memory, [])
  {
  }

  /** A step of the job itself keeps it as alone, one step further. */
  lemma OwnStep(job: Job, f: Footprint, memory: Memory, n: nat, now: Memory, history: seq<byte>)
    requires StaysWithin(job, f) && AsAlone(job, f, memory, n, now, history)
    ensures var (m, h) := Advance(job, now, history); AsAlone(job, f, memory, n + 1, m, h)
  {
    assert Alone(job, memory, n + 1) == (var (m, h) := Alone(job, memory, n); Advance(job, m, h));
  }

  /** A step of a job that writes nothing this one touches leaves this one as it was. */
  lemma ForeignStep(job: Job, f: Footprint, other: Job, g: Footprint, memory: Memory, n: nat, now: Memory, history: seq<byte>, theirs: seq<byte>)
    requires StaysWithin(other, g) && g.writes !! f.touches && AsAlone(job, f, memory, n, now, history)
    ensures AsAlone(job, f, memory, n, Advance(other, now, theirs).0, history)
  {
  }

  /** Every job of an interleaving is as if it had run alone. */
  lemma {:induction false} EveryJobAsAlone(jobs: seq<Job>, footprints: seq<Footprint>, memory: Memory, schedule: seq<nat>, i: nat)
    requires IsSchedule(jobs, schedule) && |footprints| == |jobs| && i < |jobs| && Independent(footprints)
    requires forall k :: 0 <= k < |jobs| ==> StaysWithin(jobs[k], footprints[k])
    ensures var s := Interleave(jobs, memory, schedule);
            AsAlone(jobs[i], footprints[i], memory, StepsOf(schedule, i), s.memory, s.histories[i])
  {
    if schedule == [] {
      StartAsAlone(jobs[i], footprints[i], memory);
    } else {
      var front, k := schedule[..|schedule| - 1], schedule[|schedule| - 1];
      var s := Interleave(jobs, memory, front);
      EveryJobAsAlone(jobs, footprints, memory, front, i);
      if k == i {
        OwnStep(jobs[i], footprints[i], memory, StepsOf(front, i), s.memory, s.histories[i]);
      } else {
        ForeignStep(jobs[i], footprints[i], jobs[k], footprints[k], memory, StepsOf(front, i), s.memory, s.histories[i], s.histories[k]);
      }
    }
  }

  /** Memory that no job writes stays as it was. */
  lemma {:induction false} UnwrittenStays(jobs: seq<Job>, footprints: seq<Footprint>, memory: Memory, schedule: seq<nat>, a: Address)
    requires IsSchedule(jobs, schedule) && |footprints| == |jobs|
    requires forall k :: 0 <= k < |jobs| ==> StaysWithin(jobs[k], footprints[k]) && a !in footprints[k].writes
    ensures Load(Interleave(jobs, memory, schedule).memory, a) == Load(memory, a)
  {
    if schedule != [] {
      UnwrittenStays(jobs, footprints, memory, schedule[..|schedule| - 1], a);
    }
  }

  /** Once a job is done more steps change nothing. */
  lemma {:induction false} DoneStays(job: Job, memory: Memory, n: nat, m: nat)
    requires job(Alone(job, memory, n).1) == Done && n <= m
    ensures Alone(job, memory, m) == Alone(job, memory, n)
  {
    if n < m {
      DoneStays(job, memory, n, m - 1);
    }
  }

  /** The schedule runs every job to its end. */
  ghost predicate Complete(jobs: seq<Job>, memory: Memory, schedule: seq<nat>)
    requires IsSchedule(jobs, schedule)
  {
    forall i :: 0 <= i < |jobs| ==> jobs[i](Interleave(jobs, memory, schedule).histories[i]) == Done
  }

  /** Two states nobody can tell apart by reading. */
  ghost predicate SameMemory(m: Memory, n: Memory) {
    forall a :: Load(m, a) == Load(n, a)
  }

  /**
    Serialisability: independent jobs end in the same memory, having seen the same, under any two
    schedules that run all of them to the end.
   */
  lemma AnyTwoSchedulesAgree(jobs: seq<Job>, footprints: seq<Footprint>, memory: Memory, s: seq<nat>, t: seq<nat>)
    requires IsSchedule(jobs, s) && IsSchedule(jobs, t) && |footprints| == |jobs| && Independent(footprints)
    requires forall k :: 0 <= k < |jobs| ==> StaysWithin(jobs[k], footprints[k])
    requires Complete(jobs, memory, s) && Complete(jobs, memory, t)
    ensures SameMemory(Interleave(jobs, memory, s).memory, Interleave(jobs, memory, t).memory)
    ensures Interleave(jobs, memory, s).histories == Interleave(jobs, memory, t).histories
  {
    var p, q := Interleave(jobs, memory, s), Interleave(jobs, memory, t);
    forall i | 0 <= i < |jobs|
      ensures p.histories[i] == q.histories[i]
      ensures forall a :: a in footprints[i].touches ==> Load(p.memory, a) == Load(q.memory, a)
    {
      JobAgrees(jobs, footprints, memory, s, t, i);
    }
    forall a
      ensures Load(p.memory, a) == Load(q.memory, a)
    {
      if i :| 0 <= i < |jobs| && a in footprints[i].touches {
      } else {
        OutsideAgrees(jobs, footprints, memory, s, t, a);
      }
    }
  }

  /** What a job ends with does not depend on the schedule. */
  lemma JobAgrees(jobs: seq<Job>, footprints: seq<Footprint>, memory: Memory, s: seq<nat>, t: seq<nat>, i: nat)
    requires IsSchedule(jobs, s) && IsSchedule(jobs, t) && |footprints| == |jobs| && Independent(footprints) && i < |jobs|
    requires forall k :: 0 <= k < |jobs| ==> StaysWithin(jobs[k], footprints[k])
    requires Complete(jobs, memory, s) && Complete(jobs, memory, t)
    ensures var p, q := Interleave(jobs, memory, s), Interleave(jobs, memory, t);
      p.histories[i] == q.histories[i] && forall a :: a in footprints[i].touches ==> Load(p.memory, a) == Load(q.memory, a)
  {
    hide StaysWithin, Independent;
    var n, m := StepsOf(s, i), StepsOf(t, i);
    EveryJobAsAlone(jobs, footprints, memory, s, i);
    EveryJobAsAlone(jobs, footprints, memory, t, i);
    if n <= m {
      DoneStays(jobs[i], memory, n, m);
    } else {
      DoneStays(jobs[i], memory, m, n);
    }
  }

  lemma OutsideAgrees(jobs: seq<Job>, footprints: seq<Footprint>, memory: Memory, s: seq<nat>, t: seq<nat>, a: Address)
    requires IsSchedule(jobs, s) && IsSchedule(jobs, t) && |footprints| == |jobs|
    requires forall k :: 0 <= k < |jobs| ==> StaysWithin(jobs[k], footprints[k]) && a !in footprints[k].touches
    ensures Load(Interleave(jobs, memory, s).memory, a) == Load(Interleave(jobs, memory, t).memory, a)
  {
    var narrowed := seq(|footprints|, k requires 0 <= k < |footprints| =>
      Footprint(footprints[k].touches, footprints[k].writes * footprints[k].touches));
    forall k | 0 <= k < |jobs|
      ensures StaysWithin(jobs[k], narrowed[k]) && a !in narrowed[k].writes
    {
    }
    UnwrittenStays(jobs, narrowed, memory, s, a);
    UnwrittenStays(jobs, narrowed, memory, t, a);
  }

  // ---------------------------------------------------------------------------------------------
  // One after another
  // ---------------------------------------------------------------------------------------------

  /** Job `order[0]` for all its steps, then `order[1]`, and so on. */
  function Serial(order: seq<nat>, steps: seq<nat>): seq<nat> {
    if order == [] then []
    else
      var i := order[|order| - 1];
      Serial(order[..|order| - 1], steps) + seq(if i < |steps| then steps[i] else 0, _ => i)
  }

  lemma {:induction false} StepsOfSum(s: seq<nat>, t: seq<nat>, i: nat)
    ensures StepsOf(s + t, i) == StepsOf(s, i) + StepsOf(t, i)
  {
    if t == [] {
      assert s + t == s;
    } else {
      StepsOfSum(s, t[..|t| - 1], i);
      assert (s + t)[..|s + t| - 1] == s + t[..|t| - 1];
    }
  }

  lemma {:induction false} StepsOfRepeat(j: nat, n: nat, i: nat)
    ensures StepsOf(seq(n, _ => j), i) == if i == j then n else 0
  {
    if n > 0 {
      StepsOfRepeat(j, n - 1, i);
      assert seq(n, _ => j)[..n - 1] == seq(n - 1, _ => j);
    }
  }

  /** In a serial schedule every job of the order has exactly its steps. */
  lemma {:induction false} SerialSteps(order: seq<nat>, steps: seq<nat>, i: nat)
    requires Distinct(order) && forall k :: k in order ==> k < |steps|
    ensures StepsOf(Serial(order, steps), i) == if i in order then steps[i] else 0
    ensures forall k :: k in Serial(order, steps) ==> k in order
  {
    if order != [] {
      var front, j := order[..|order| - 1], order[|order| - 1];
      assert order == front + [j] && j in order;
      forall k | k in front
        ensures k < |steps|
      {
        assert k in order;
      }
      SerialSteps(front, steps, i);
      StepsOfSum(Serial(front, steps), seq(steps[j], _ => j), i);
      StepsOfRepeat(j, steps[j], i);
    }
  }

  /**
    Independent jobs that each halt when run alone end, under every schedule that runs them to
    the end, as when run one after another in whatever order.
   */
  lemma EqualsAnySerialOrder(jobs: seq<Job>, footprints: seq<Footprint>, memory: Memory, schedule: seq<nat>, order: seq<nat>, steps: seq<nat>)
    requires IsSchedule(jobs, schedule) && |footprints| == |jobs| == |steps| && Independent(footprints)
    requires forall k :: 0 <= k < |jobs| ==> StaysWithin(jobs[k], footprints[k])
    requires forall k :: 0 <= k < |jobs| ==> jobs[k](Alone(jobs[k], memory, steps[k]).1) == Done
    requires Distinct(order) && forall k :: k in order <==> k < |jobs|
    requires Complete(jobs, memory, schedule)
    ensures IsSchedule(jobs, Serial(order, steps)) && Complete(jobs, memory, Serial(order, steps))
    ensures SameMemory(Interleave(jobs, memory, schedule).memory, Interleave(jobs, memory, Serial(order, steps)).memory)
  {
    hide StaysWithin, Independent, SameMemory;
    var serial := Serial(order, steps);
    SerialSteps(order, steps, 0);
    assert IsSchedule(jobs, serial) by {
      forall k | 0 <= k < |serial|
        ensures serial[k] < |jobs|
      {
        assert serial[k] in serial;
      }
    }
    forall i | 0 <= i < |jobs|
      ensures jobs[i](Interleave(jobs, memory, serial).histories[i]) == Done
    {
      SerialSteps(order, steps, i);
      EveryJobAsAlone(jobs, footprints, memory, serial, i);
    }
    AnyTwoSchedulesAgree(jobs, footprints, memory, schedule, serial);
  }

  /** How many steps each job took. */
  function StepCounts(schedule: seq<nat>, n: nat): (counts: seq<nat>)
    ensures |counts| == n && forall i :: 0 <= i < n ==> counts[i] == StepsOf(schedule, i)
  {
    seq(n, i requires 0 <= i < n => StepsOf(schedule, i))
  }

  /** A job that an interleaving ran to its end halts alone after as many steps. */
  lemma HaltsAlone(jobs: seq<Job>, footprints: seq<Footprint>, memory: Memory, schedule: seq<nat>, i: nat)
    requires IsSchedule(jobs, schedule) && |footprints| == |jobs| && i < |jobs| && Independent(footprints)
    requires forall k :: 0 <= k < |jobs| ==> StaysWithin(jobs[k], footprints[k])
    requires Complete(jobs, memory, schedule)
    ensures jobs[i](Alone(jobs[i], memory, StepsOf(schedule, i)).1) == Done
  {
    hide StaysWithin, Independent;
    EveryJobAsAlone(jobs, footprints, memory, schedule, i);
  }

  /** The jobs one after another in this order, each for the steps it took in the schedule. */
  function InTurn(schedule: seq<nat>, order: seq<nat>, n: nat): seq<nat> {
    Serial(order, StepCounts(schedule, n))
  }

  /** Every complete interleaving of independent jobs ends like running them in turn, in whatever order. */
  lemma EqualsInTurn(jobs: seq<Job>, footprints: seq<Footprint>, memory: Memory, schedule: seq<nat>, order: seq<nat>)
    requires IsSchedule(jobs, schedule) && |footprints| == |jobs| && Independent(footprints)
    requires forall k :: 0 <= k < |jobs| ==> StaysWithin(jobs[k], footprints[k])
    requires Distinct(order) && forall k :: k in order <==> k < |jobs|
    requires Complete(jobs, memory, schedule)
    ensures var turns := InTurn(schedule, order, |jobs|);
      && IsSchedule(jobs, turns) && Complete(jobs, memory, turns)
      && SameMemory(Interleave(jobs, memory, schedule).memory, Interleave(jobs, memory, turns).memory)
  {
    hide StaysWithin, Independent, SameMemory, Complete, IsSchedule;
    var counts := StepCounts(schedule, |jobs|);
    forall k | 0 <= k < |jobs|
      ensures jobs[k](Alone(jobs[k], memory, counts[k]).1) == Done
    {
      HaltsAlone(jobs, footprints, memory, schedule, k);
    }
    EqualsAnySerialOrder(jobs, footprints, memory, schedule, order, counts);
  }
}
