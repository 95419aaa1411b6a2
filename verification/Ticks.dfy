/**
  Change ticks: a `u32` counter that wraps around, compared by age. Times are the unbounded counts
  the ticks stand for; a world's tick is its time modulo 2^32.
 */
module Ticks {
  import opened Cells

  const TICK_RANGE: nat := 0x1_0000_0000

  function WrappingSub(a: Tick, b: Tick): Tick {
    (a - b) % TICK_RANGE
  }

  function NextTick(t: Tick): Tick {
    (t + 1) % TICK_RANGE
  }

  /** What `Added` and `Changed` measure against: the previous run and this one. */
  datatype Window = Window(lastRun: Tick, thisRun: Tick)

  /** Ages, not ticks, are compared: how long ago the stamp was made, and how long ago the last run was. */
  predicate IsNewerThan(stamp: Tick, w: Window) {
    WrappingSub(w.thisRun, stamp) < WrappingSub(w.thisRun, w.lastRun)
  }

  function TickOf(time: nat): Tick {
    time % TICK_RANGE
  }

  lemma NextTickOf(time: nat)
    ensures NextTick(TickOf(time)) == TickOf(time + 1)
  {
  }

  /** The age of a stamp is the time that passed, as long as that stays below 2^32. */
  lemma AgeOf(made: nat, thisRun: nat)
    requires made <= thisRun
    ensures WrappingSub(TickOf(thisRun), TickOf(made)) == (thisRun - made) % TICK_RANGE
  {
    var q, r := thisRun / TICK_RANGE - made / TICK_RANGE, thisRun % TICK_RANGE - made % TICK_RANGE;
    assert thisRun - made == q * TICK_RANGE + r;
  }

  /**
    Through any number of wraparounds: a stamp is newer than the last run exactly when it was made
    after it, provided neither lies 2^32 ticks or more back.
   */
  lemma NewerIffLater(stamp: nat, lastRun: nat, thisRun: nat)
    requires stamp <= thisRun && lastRun <= thisRun
    requires thisRun - stamp < TICK_RANGE && thisRun - lastRun < TICK_RANGE
    ensures IsNewerThan(TickOf(stamp), Window(TickOf(lastRun), TickOf(thisRun))) <==> lastRun < stamp
  {
    AgeOf(stamp, thisRun);
    AgeOf(lastRun, thisRun);
  }

  /** Everything written since the last run is seen, if and only if fewer than 2^32 ticks passed since. */
  lemma FreshStampsSeenIff(lastRun: nat, thisRun: nat)
    requires lastRun <= thisRun
    ensures (forall stamp :: lastRun < stamp <= thisRun ==> IsNewerThan(TickOf(stamp), Window(TickOf(lastRun), TickOf(thisRun))))
       <==> thisRun - lastRun < TICK_RANGE
  {
    if thisRun - lastRun < TICK_RANGE {
      forall stamp | lastRun < stamp <= thisRun
        ensures IsNewerThan(TickOf(stamp), Window(TickOf(lastRun), TickOf(thisRun)))
      {
        NewerIffLater(stamp, lastRun, thisRun);
      }
    } else {
      assert TickOf(lastRun + TICK_RANGE) == TickOf(lastRun);
      assert !IsNewerThan(TickOf(lastRun + TICK_RANGE), Window(TickOf(lastRun), TickOf(thisRun)));
    }
  }

  /** Nothing written up to the last run is seen again, if and only if the oldest stamp around is younger than 2^32 ticks. */
  lemma OldStampsUnseenIff(oldest: nat, lastRun: nat, thisRun: nat)
    requires oldest <= lastRun < thisRun && thisRun - lastRun < TICK_RANGE
    ensures (forall stamp :: oldest <= stamp <= lastRun ==> !IsNewerThan(TickOf(stamp), Window(TickOf(lastRun), TickOf(thisRun))))
       <==> thisRun - oldest < TICK_RANGE
  {
    AgeOf(lastRun, thisRun);
    if thisRun - oldest < TICK_RANGE {
      forall stamp | oldest <= stamp <= lastRun
        ensures !IsNewerThan(TickOf(stamp), Window(TickOf(lastRun), TickOf(thisRun)))
      {
        NewerIffLater(stamp, lastRun, thisRun);
      }
    } else {
      var stamp := thisRun - TICK_RANGE;
      AgeOf(stamp, thisRun);
      assert IsNewerThan(TickOf(stamp), Window(TickOf(lastRun), TickOf(thisRun)));
    }
  }

  /** A run that comes 2^32 ticks late: a fresh stamp goes unseen, and an old one comes back. */
  lemma LappedRunsMisreport()
    ensures !IsNewerThan(TickOf(1 + TICK_RANGE), Window(TickOf(1), TickOf(1 + TICK_RANGE)))
    ensures IsNewerThan(TickOf(1), Window(TickOf(TICK_RANGE), TickOf(1 + TICK_RANGE)))
  {
  }

  // ---------------------------------------------------------------------------------------------
  // Queries made by hand
  // ---------------------------------------------------------------------------------------------

  /** What happens to a world's clock: a write stamps, every other event closes the round. */
  datatype Event = Write | Query | QuerySince(baseline: Tick) | Capture | Advance

  /** The time before event `n` of a history that starts at time `start`. */
  function TimeAt(events: seq<Event>, start: nat, n: nat): nat
    requires n <= |events|
  {
    if n == 0 then start
    else TimeAt(events, start, n - 1) + if events[n - 1].Write? then 0 else 1
  }

  /** The baseline the next `create_query` call starts from: the time at the previous one, 0 when there was none. */
  function BaselineAt(events: seq<Event>, start: nat, n: nat): nat
    requires n <= |events|
  {
    if n == 0 then 0
    else if events[n - 1].Query? then TimeAt(events, start, n - 1)
    else BaselineAt(events, start, n - 1)
  }

  /** The window the `create_query` call at `j` measures in. */
  function WindowAt(events: seq<Event>, start: nat, j: nat): Window
    requires j < |events|
  {
    Window(TickOf(BaselineAt(events, start, j)), TickOf(TimeAt(events, start, j) + 1))
  }

  /** The stamp or the window that event `j` hands out. */
  predicate Tells(events: seq<Event>, start: nat, j: nat, stamp: Tick, window: Window)
    requires j < |events|
  {
    match events[j]
    case Write => stamp == TickOf(TimeAt(events, start, j))
    case Capture => stamp == TickOf(TimeAt(events, start, j))
    case Query => window == WindowAt(events, start, j)
    case QuerySince(baseline) => window == Window(baseline, TickOf(TimeAt(events, start, j) + 1))
    case Advance => true
  }

  lemma {:induction false} TimeAscends(events: seq<Event>, start: nat, i: nat, j: nat)
    requires i <= j <= |events|
    ensures TimeAt(events, start, i) <= TimeAt(events, start, j)
    ensures (exists k :: i <= k < j && events[k].Query?) ==> TimeAt(events, start, i) < TimeAt(events, start, j)
  {
    if i < j {
      TimeAscends(events, start, i, j - 1);
    }
  }

  /** The baseline lies before a write exactly when no query came between the write and now. */
  lemma {:induction false} BaselineOf(events: seq<Event>, start: nat, i: nat, j: nat)
    requires i <= j <= |events| && start > 0
    ensures BaselineAt(events, start, j) < TimeAt(events, start, i) <==> !exists k :: i <= k < j && events[k].Query?
    ensures BaselineAt(events, start, j) <= TimeAt(events, start, j)
  {
    if i == j {
      if j > 0 {
        BaselineOf(events, start, j - 1, j - 1);
      }
    } else {
      BaselineOf(events, start, i, j - 1);
      TimeAscends(events, start, i, j - 1);
    }
  }

  /**
    Query windows partition time: a `create_query` call reports a write made before it exactly when
    it is the first such call after the write, whatever else moved the clock in between.
   */
  lemma ReportedByTheNextQuery(events: seq<Event>, start: nat, i: nat, j: nat)
    requires i < j < |events| && events[i].Write? && events[j].Query? && start > 0
    requires TimeAt(events, start, j) + 1 - TimeAt(events, start, i) < TICK_RANGE
    requires TimeAt(events, start, j) + 1 - BaselineAt(events, start, j) < TICK_RANGE
    ensures IsNewerThan(TickOf(TimeAt(events, start, i)), WindowAt(events, start, j))
       <==> forall k :: i < k < j ==> !events[k].Query?
  {
    BaselineOf(events, start, i, j);
    TimeAscends(events, start, i, j);
    NewerIffLater(TimeAt(events, start, i), BaselineAt(events, start, j), TimeAt(events, start, j) + 1);
  }

  /** A query since a captured tick reports exactly the writes made after the capture, however often it is repeated. */
  lemma ReportedSinceCapture(events: seq<Event>, start: nat, c: nat, w: nat, j: nat)
    requires c < j < |events| && w < j && events[c].Capture? && events[w].Write?
    requires events[j] == QuerySince(TickOf(TimeAt(events, start, c)))
    requires TimeAt(events, start, j) + 1 - TimeAt(events, start, w) < TICK_RANGE && TimeAt(events, start, j) + 1 - TimeAt(events, start, c) < TICK_RANGE
    ensures IsNewerThan(TickOf(TimeAt(events, start, w)), Window(events[j].baseline, TickOf(TimeAt(events, start, j) + 1))) <==> c < w
  {
    TimeAscends(events, start, w, j);
    TimeAscends(events, start, c, j);
    if c < w {
      TimeAscends(events, start, c + 1, w);
    } else {
      TimeAscends(events, start, w, c);
    }
    NewerIffLater(TimeAt(events, start, w), TimeAt(events, start, c), TimeAt(events, start, j) + 1);
  }
}
