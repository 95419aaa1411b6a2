/**
  The contents of one archetype as values: its chunks as sequences of rows, and the queue of chunks
  that still have room.
 */
module Storages {
  import opened Prelude
  import opened Rows

  datatype Storage = Storage(chunks: seq<seq<Row>>, free: seq<nat>)

  /** Where a row sits. */
  datatype Position = Position(chunk: nat, row: nat)

  /** No chunk is over-full, and the queue holds exactly the non-full chunks, each once. */
  ghost predicate StorageOk(s: Storage, maxLen: nat) {
    && maxLen > 0
    && (forall k :: 0 <= k < |s.chunks| ==> |s.chunks[k]| <= maxLen)
    && QueueOk(s.free, s.chunks, maxLen)
  }

  ghost predicate QueueOk(free: seq<nat>, chunks: seq<seq<Row>>, maxLen: nat) {
    && Distinct(free)
    && (forall k: nat :: k in free <==> k < |chunks| && |chunks[k]| < maxLen)
  }

  predicate At(s: Storage, p: Position) {
    p.chunk < |s.chunks| && p.row < |s.chunks[p.chunk]|
  }

  function RowAt(s: Storage, p: Position): Row
    requires At(s, p)
  {
    s.chunks[p.chunk][p.row]
  }

  /** The chunk the next row goes to: the head of the queue, or a new chunk when all are full. */
  function TargetChunk(s: Storage): nat {
    if HasRoom(s) then s.free[0] else |s.chunks|
  }

  /** Some chunk is queued. (A queued index is always one of a chunk, see `StorageOk`.) */
  predicate HasRoom(s: Storage) {
    s.free != [] && s.free[0] < |s.chunks|
  }

  function Requeue(free: seq<nat>, k: nat): seq<nat> {
    if k in free then free else free + [k]
  }

  /** The target chunk taken out of the queue, or the new chunk appended. */
  function Opened(s: Storage): Storage {
    if HasRoom(s) then Storage(s.chunks, s.free[1..]) else Storage(s.chunks + [[]], [])
  }

  /** One more row in chunk `k`, which rejoins the queue at the back unless it is full now. */
  function Filled(s: Storage, k: nat, maxLen: nat, row: Row): Storage
    requires k < |s.chunks|
  {
    Storage(s.chunks[k := s.chunks[k] + [row]],
            if |s.chunks[k]| + 1 < maxLen then Requeue(s.free, k) else s.free)
  }

  /** Appends a row to the target chunk. */
  function Pushed(s: Storage, maxLen: nat, row: Row): Storage
  {
    Filled(Opened(s), TargetChunk(s), maxLen, row)
  }

  /** Opening the target chunk, appending the row and requeueing the chunk while it has room is a push. */
  lemma PushedInSteps(s: Storage, ready: Storage, k: nat, maxLen: nat, row: Row)
    requires ready == Opened(s) && k == TargetChunk(s) && k < |ready.chunks|
    ensures var chunks := ready.chunks[k := ready.chunks[k] + [row]];
      Pushed(s, maxLen, row) == Storage(chunks, if |chunks[k]| < maxLen then Requeue(ready.free, k) else ready.free)
    ensures PushPosition(s) == Position(k, |ready.chunks[k]|)
  {
  }

  /** Where `Pushed` puts the row. */
  function PushPosition(s: Storage): Position
  {
    Position(TargetChunk(s), |Opened(s).chunks[TargetChunk(s)]|)
  }

  /** Swap-removes a row; the chunk has room now, so it joins the queue unless it is there. */
  function Removed(s: Storage, p: Position): Storage
    requires At(s, p)
  {
    Storage(s.chunks[p.chunk := SwapRemove(s.chunks[p.chunk], p.row)], Requeue(s.free, p.chunk))
  }

  function Replaced(s: Storage, p: Position, row: Row): Storage
    requires At(s, p)
  {
    Storage(s.chunks[p.chunk := s.chunks[p.chunk][p.row := row]], s.free)
  }

  /** Pushing keeps the invariant; a new chunk appears only when every existing one is full. */
  lemma PushedOk(s: Storage, maxLen: nat, row: Row)
    requires StorageOk(s, maxLen)
    ensures StorageOk(Pushed(s, maxLen, row), maxLen)
    ensures |Pushed(s, maxLen, row).chunks| > |s.chunks| <==> forall k :: 0 <= k < |s.chunks| ==> |s.chunks[k]| == maxLen
    ensures At(Pushed(s, maxLen, row), PushPosition(s)) && RowAt(Pushed(s, maxLen, row), PushPosition(s)) == row
    ensures forall p :: At(Pushed(s, maxLen, row), p) <==> At(s, p) || p == PushPosition(s)
    ensures forall p :: At(s, p) ==> p != PushPosition(s) && RowAt(Pushed(s, maxLen, row), p) == RowAt(s, p)
  {
    if s.free != [] {
      assert s.free[0] in s.free && HasRoom(s);
      assert forall k :: k in s.free <==> k == s.free[0] || k in s.free[1..];
    }
  }

  /** The chunk at the head of the queue takes the row, and rejoins at the back while it has room. */
  lemma PushedQueue(s: Storage, maxLen: nat, row: Row)
    requires StorageOk(s, maxLen)
    ensures var k := PushPosition(s).chunk;
      && (if s.free == [] then k == |s.chunks| else k == s.free[0])
      && Pushed(s, maxLen, row).free == (if s.free == [] then [] else s.free[1..]) + if PushPosition(s).row + 1 < maxLen then [k] else []
  {
    if s.free != [] {
      assert s.free[0] in s.free && HasRoom(s);
      assert s.free[0] !in s.free[1..];
    }
  }

  /** Removing keeps the invariant; every other row stays, the last one of the chunk at the hole. */
  lemma RemovedOk(s: Storage, maxLen: nat, p: Position)
    requires StorageOk(s, maxLen) && At(s, p)
    ensures StorageOk(Removed(s, p), maxLen)
    ensures var last := Position(p.chunk, |s.chunks[p.chunk]| - 1);
            && (forall q :: At(Removed(s, p), q) <==> At(s, q) && q != last)
            && (forall q :: At(Removed(s, p), q) ==> RowAt(Removed(s, p), q) == RowAt(s, if q == p then last else q))
    ensures Removed(s, p).free == if p.chunk in s.free then s.free else s.free + [p.chunk]
  {
    assert forall k :: k in Requeue(s.free, p.chunk) <==> k in s.free || k == p.chunk;
  }

  lemma ReplacedOk(s: Storage, maxLen: nat, p: Position, row: Row)
    requires StorageOk(s, maxLen) && At(s, p)
    ensures StorageOk(Replaced(s, p, row), maxLen)
    ensures forall q :: At(Replaced(s, p, row), q) <==> At(s, q)
    ensures forall q :: At(s, q) ==> RowAt(Replaced(s, p, row), q) == if q == p then row else RowAt(s, q)
  {
  }

  /** A storage of capacity one per chunk that has a chunk with room, or none at all, has at most its one row. */
  lemma SingletonCapacity(s: Storage)
    requires StorageOk(s, 1) && |s.chunks| <= 1
    ensures forall p, q :: At(s, p) && At(s, q) ==> p == q
    ensures s.free == [] && s.chunks != [] <==> exists p :: At(s, p)
  {
    assert s.free == [] || s.free[0] in s.free;
    if s.chunks != [] {
      assert 0 in s.free <==> |s.chunks[0]| < 1;
      if |s.chunks[0]| == 1 {
        assert At(s, Position(0, 0));
      }
    }
  }
}
