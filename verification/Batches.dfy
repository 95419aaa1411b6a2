/** Walking a query: one cursor over the non-empty chunks, and two ways of cutting its rows into batches. */
module Batches {
  import opened Prelude

  /** The smallest batch, and the grid cuts inside a chunk snap to: rows that share an enable byte. */
  const MIN_BATCH_AMOUNT: nat := BITS_PER_BYTE

  /** Rows `start..end` of a chunk of a matched archetype. */
  datatype Piece = Piece(arch: nat, chunk: nat, start: nat, end: nat)

  datatype RowPos = RowPos(arch: nat, chunk: nat, row: nat)

  /** The chunk lengths of the matched archetypes, in the order they are walked. */
  type Lengths = seq<seq<nat>>

  // ---------------------------------------------------------------------------------------------
  // What there is to walk
  // ---------------------------------------------------------------------------------------------

  /** The non-empty chunks at or after a chunk. */
  function ChunksFrom(lens: Lengths, arch: nat, chunk: nat): seq<Piece>
    decreases |lens| - arch, if arch < |lens| then |lens[arch]| - chunk else 0
  {
    if arch >= |lens| then []
    else if chunk >= |lens[arch]| then ChunksFrom(lens, arch + 1, 0)
    else if lens[arch][chunk] == 0 then ChunksFrom(lens, arch, chunk + 1)
    else [Piece(arch, chunk, 0, lens[arch][chunk])] + ChunksFrom(lens, arch, chunk + 1)
  }

  function PieceRows(p: Piece): (s: seq<RowPos>)
    ensures p.start <= p.end ==> |s| == p.end - p.start && forall i :: 0 <= i < |s| ==> s[i] == RowPos(p.arch, p.chunk, p.start + i)
  {
    if p.start > p.end then [] else seq(p.end - p.start, i requires 0 <= i => RowPos(p.arch, p.chunk, p.start + i))
  }

  function Rows(ps: seq<Piece>): seq<RowPos> {
    if ps == [] then [] else PieceRows(ps[0]) + Rows(ps[1..])
  }

  function Count(ps: seq<Piece>): nat {
    if ps == [] then 0 else (if ps[0].start <= ps[0].end then ps[0].end - ps[0].start else 0) + Count(ps[1..])
  }

  lemma {:induction false} CountIsRows(ps: seq<Piece>)
    ensures Count(ps) == |Rows(ps)|
  {
    if ps != [] {
      CountIsRows(ps[1..]);
    }
  }

  lemma {:induction false} RowsConcat(ps: seq<Piece>, qs: seq<Piece>)
    ensures Rows(ps + qs) == Rows(ps) + Rows(qs)
  {
    hide PieceRows;
    if ps == [] {
      assert ps + qs == qs;
    } else {
      RowsConcat(ps[1..], qs);
      assert (ps + qs)[1..] == ps[1..] + qs;
    }
  }

  // ---------------------------------------------------------------------------------------------
  // Cutting, as a function
  // ---------------------------------------------------------------------------------------------

  /** Every piece has rows; the first one may start at an earlier cut, the others start their chunk. */
  ghost predicate RestOk(rest: seq<Piece>) {
    && (forall i :: 0 <= i < |rest| ==> rest[i].start < rest[i].end)
    && (forall i :: 1 <= i < |rest| ==> rest[i].start == 0)
    && (rest != [] ==> rest[0].start % MIN_BATCH_AMOUNT == 0)
  }

  /** Where a batch with this much room ends in a piece. */
  function SplitAt(p: Piece, room: nat): (split: nat)
    requires p.start % MIN_BATCH_AMOUNT == 0 && p.start < p.end
    ensures p.start <= split <= p.end && split - p.start <= room
    ensures split < p.end ==> split % MIN_BATCH_AMOUNT == 0 && room < split - p.start + MIN_BATCH_AMOUNT
    ensures room >= MIN_BATCH_AMOUNT ==> p.start < split
  {
    if p.start + room >= p.end then p.end else (p.start + room) / MIN_BATCH_AMOUNT * MIN_BATCH_AMOUNT
  }

  /** One batch off the front, and what is left. */
  function Cut(rest: seq<Piece>, room: nat): (r: (seq<Piece>, seq<Piece>))
    requires RestOk(rest)
    ensures RestOk(r.1)
    decreases |rest|
  {
    if room == 0 || rest == [] then ([], rest)
    else
      var p := rest[0];
      var split := SplitAt(p, room);
      if split == p.start then ([], rest)
      else if split < p.end then ([p.(end := split)], [p.(start := split)] + rest[1..])
      else
        assert RestOk(rest[1..]);
        var (batch, left) := Cut(rest[1..], room - (split - p.start));
        ([p] + batch, left)
  }

  /** A piece cut in two has the rows of both halves. */
  lemma SplitRows(p: Piece, split: nat, more: seq<Piece>)
    requires p.start <= split <= p.end
    ensures Rows([p] + more) == Rows([p.(end := split)]) + Rows([p.(start := split)] + more)
    ensures Count([p.(end := split)]) == split - p.start
  {
    var a, b := p.(end := split), p.(start := split);
    assert PieceRows(p) == PieceRows(a) + PieceRows(b);
    assert ([p] + more)[1..] == more && ([b] + more)[1..] == more;
    assert Rows([a]) == PieceRows(a);
  }

  /** A cut covers the rows in order, and leaves fewer than 8 rows of room unless nothing is left. */
  lemma {:induction false} CutCovers(rest: seq<Piece>, room: nat)
    requires RestOk(rest)
    ensures var (batch, left) := Cut(rest, room);
      && Rows(rest) == Rows(batch) + Rows(left)
      && Count(batch) <= room && (left != [] ==> room < Count(batch) + MIN_BATCH_AMOUNT)
      && (forall i :: 0 <= i < |batch| ==> batch[i].start < batch[i].end && batch[i].start % MIN_BATCH_AMOUNT == 0)
    decreases |rest|
  {
    hide SplitAt, PieceRows, Rows, Count;
    NoRows();
    assert [] + Rows(rest) == Rows(rest);
    if room > 0 && rest != [] {
      var p := rest[0];
      var split := SplitAt(p, room);
      assert rest == [p] + rest[1..];
      if p.start < split < p.end {
        SplitRows(p, split, rest[1..]);
      } else if split == p.end {
        assert RestOk(rest[1..]);
        CutCovers(rest[1..], room - (split - p.start));
        var (batch, left) := Cut(rest[1..], room - (split - p.start));
        assert Cut(rest, room) == ([p] + batch, left);
        PieceFirst(p, batch);
        PieceFirst(p, rest[1..]);
        assert PieceRows(p) + (Rows(batch) + Rows(left)) == (PieceRows(p) + Rows(batch)) + Rows(left);
      }
    }
  }

  lemma NoRows()
    ensures Rows([]) == [] && Count([]) == 0
  {
  }

  lemma PieceFirst(p: Piece, ps: seq<Piece>)
    ensures Rows([p] + ps) == PieceRows(p) + Rows(ps)
    ensures p.start <= p.end ==> Count([p] + ps) == p.end - p.start + Count(ps)
  {
    assert ([p] + ps)[1..] == ps;
  }

  /** With room for a whole byte of rows a cut takes something. */
  lemma CutProgress(rest: seq<Piece>, room: nat)
    requires RestOk(rest) && rest != [] && room >= MIN_BATCH_AMOUNT
    ensures Cut(rest, room).0 != [] && |Rows(Cut(rest, room).1)| < |Rows(rest)|
  {
    CutCovers(rest, room);
    CountIsRows(Cut(rest, room).0);
  }

  /** All batches of what there is to walk. */
  function AllBatches(rest: seq<Piece>, amount: nat): seq<seq<Piece>>
    requires RestOk(rest) && amount >= MIN_BATCH_AMOUNT
    decreases |Rows(rest)|
  {
    if rest == [] then []
    else
      CutProgress(rest, amount);
      [Cut(rest, amount).0] + AllBatches(Cut(rest, amount).1, amount)
  }

  lemma BatchesUnfold(rest: seq<Piece>, amount: nat)
    requires RestOk(rest) && amount >= MIN_BATCH_AMOUNT
    ensures rest == [] ==> AllBatches(rest, amount) == []
    ensures rest != [] ==>
      && AllBatches(rest, amount) == [Cut(rest, amount).0] + AllBatches(Cut(rest, amount).1, amount)
      && |Rows(Cut(rest, amount).1)| < |Rows(rest)|
  {
    if rest != [] {
      CutProgress(rest, amount);
    }
  }

  /** One batch goes from what is left to what was handed out. */
  lemma OneMoreBatch(done: seq<seq<Piece>>, rest: seq<Piece>, amount: nat)
    requires RestOk(rest) && amount >= MIN_BATCH_AMOUNT
    ensures rest == [] ==> done + AllBatches(rest, amount) == done
    ensures rest != [] ==>
      && done + AllBatches(rest, amount) == (done + [Cut(rest, amount).0]) + AllBatches(Cut(rest, amount).1, amount)
      && |Rows(Cut(rest, amount).1)| < |Rows(rest)|
  {
    hide Cut, AllBatches, Rows, RestOk;
    BatchesUnfold(rest, amount);
  }

  function RowsOfAll(batches: seq<seq<Piece>>): seq<RowPos> {
    if batches == [] then [] else Rows(batches[0]) + RowsOfAll(batches[1..])
  }

  /**
    Coverage: the batches in order cover exactly the rows there are, in their order, each once;
    every batch has 1 to `amount` rows, every batch but the last more than `amount - 8`.
   */
  lemma {:induction false} BatchesCover(rest: seq<Piece>, amount: nat)
    requires RestOk(rest) && amount >= MIN_BATCH_AMOUNT
    ensures RowsOfAll(AllBatches(rest, amount)) == Rows(rest)
    ensures forall b :: 0 <= b < |AllBatches(rest, amount)| ==> 1 <= Count(AllBatches(rest, amount)[b]) <= amount
    ensures forall b :: 0 <= b < |AllBatches(rest, amount)| - 1 ==> amount < Count(AllBatches(rest, amount)[b]) + MIN_BATCH_AMOUNT
    decreases |Rows(rest)|
  {
    hide Cut, Rows;
    BatchesUnfold(rest, amount);
    if rest == [] {
      NoRows();
    } else {
      var (batch, left) := Cut(rest, amount);
      CutProgress(rest, amount);
      CutCovers(rest, amount);
      BatchesCover(left, amount);
      BatchesUnfold(left, amount);
      var all := AllBatches(rest, amount);
      assert all == [batch] + AllBatches(left, amount) && all[1..] == AllBatches(left, amount);
      assert Count(batch) >= 1;
      forall b | 0 <= b < |all|
        ensures 1 <= Count(all[b]) <= amount && (b < |all| - 1 ==> amount < Count(all[b]) + MIN_BATCH_AMOUNT)
      {
        assert b > 0 ==> all[b] == AllBatches(left, amount)[b - 1];
      }
    }
  }

  lemma {:induction false} ChunksOk(lens: Lengths, arch: nat, chunk: nat)
    ensures forall i :: 0 <= i < |ChunksFrom(lens, arch, chunk)| ==> WholeChunk(lens, ChunksFrom(lens, arch, chunk)[i])
    ensures RestOk(ChunksFrom(lens, arch, chunk))
    decreases |lens| - arch, if arch < |lens| then |lens[arch]| - chunk else 0
  {
    if arch < |lens| {
      if chunk >= |lens[arch]| {
        ChunksOk(lens, arch + 1, 0);
      } else {
        ChunksOk(lens, arch, chunk + 1);
      }
    }
  }

  /** All of a non-empty chunk. */
  ghost predicate WholeChunk(lens: Lengths, p: Piece) {
    p.arch < |lens| && p.chunk < |lens[p.arch]| && p.start == 0 < p.end == lens[p.arch][p.chunk]
  }

  // ---------------------------------------------------------------------------------------------
  // Every row there is, each once
  // ---------------------------------------------------------------------------------------------

  /** A row of the matched archetypes, by the chunk lengths alone. */
  predicate IsRow(lens: Lengths, pos: RowPos) {
    pos.arch < |lens| && pos.chunk < |lens[pos.arch]| && pos.row < lens[pos.arch][pos.chunk]
  }

  /** Walking order: by archetype, by chunk, by row. */
  predicate Before(p: RowPos, q: RowPos) {
    p.arch < q.arch || (p.arch == q.arch && (p.chunk < q.chunk || (p.chunk == q.chunk && p.row < q.row)))
  }

  /** The row lies in chunk `chunk` of archetype `arch`, or behind it. */
  predicate NotBefore(pos: RowPos, arch: nat, chunk: nat) {
    pos.arch > arch || (pos.arch == arch && pos.chunk >= chunk)
  }

  /** In walking order, so nothing comes twice. */
  ghost predicate InOrder(rows: seq<RowPos>) {
    forall i, j :: 0 <= i < j < |rows| ==> Before(rows[i], rows[j])
  }

  /** The walk visits every row there is, whatever the chunk lengths, each once and in order. */
  lemma {:induction false} WalkVisitsEveryRow(lens: Lengths, arch: nat, chunk: nat)
    ensures var rows := Rows(ChunksFrom(lens, arch, chunk));
      InOrder(rows) && forall pos :: pos in rows <==> IsRow(lens, pos) && NotBefore(pos, arch, chunk)
    decreases |lens| - arch, if arch < |lens| then |lens[arch]| - chunk else 0
  {
    hide PieceRows, InOrder;
    if arch >= |lens| {
      NoRows();
      NothingInOrder();
    } else if chunk >= |lens[arch]| {
      WalkVisitsEveryRow(lens, arch + 1, 0);
    } else {
      WalkVisitsEveryRow(lens, arch, chunk + 1);
      if lens[arch][chunk] > 0 {
        ChunkVisited(lens, arch, chunk);
      }
    }
  }

  lemma NothingInOrder()
    ensures InOrder([])
  {
  }

  lemma ChunkVisited(lens: Lengths, arch: nat, chunk: nat)
    requires arch < |lens| && chunk < |lens[arch]| && lens[arch][chunk] > 0
    requires var rows := Rows(ChunksFrom(lens, arch, chunk + 1));
      InOrder(rows) && forall pos :: pos in rows <==> IsRow(lens, pos) && NotBefore(pos, arch, chunk + 1)
    ensures var rows := Rows(ChunksFrom(lens, arch, chunk));
      InOrder(rows) && forall pos :: pos in rows <==> IsRow(lens, pos) && NotBefore(pos, arch, chunk)
  {
    hide Rows;
    var p, more := Piece(arch, chunk, 0, lens[arch][chunk]), ChunksFrom(lens, arch, chunk + 1);
    PieceFirst(p, more);
    var here, rest := PieceRows(p), Rows(more);
    forall pos
      ensures pos in here <==> IsRow(lens, pos) && pos.arch == arch && pos.chunk == chunk
    {
      if IsRow(lens, pos) && pos.arch == arch && pos.chunk == chunk {
        assert here[pos.row] == pos;
      }
    }
    assert Rows(ChunksFrom(lens, arch, chunk)) == here + rest;
    InOrderConcat(here, rest);
  }

  lemma InOrderConcat(a: seq<RowPos>, b: seq<RowPos>)
    requires InOrder(a) && InOrder(b) && forall p, q :: p in a && q in b ==> Before(p, q)
    ensures InOrder(a + b)
  {
  }

  function Sum(ns: seq<nat>): nat {
    if ns == [] then 0 else Sum(ns[..|ns| - 1]) + ns[|ns| - 1]
  }

  /** How many rows there are. */
  function Total(lens: Lengths): nat {
    if lens == [] then 0 else Total(lens[..|lens| - 1]) + Sum(lens[|lens| - 1])
  }

  /** The walk is as long as all chunks together. */
  lemma {:induction false} WalkCounts(lens: Lengths, arch: nat, chunk: nat)
    requires arch < |lens| ==> chunk <= |lens[arch]|
    ensures |Rows(ChunksFrom(lens, arch, chunk))| + (if arch < |lens| then Total(lens[..arch]) + Sum(lens[arch][..chunk]) else Total(lens)) == Total(lens)
    decreases |lens| - arch, if arch < |lens| then |lens[arch]| - chunk else 0
  {
    if arch < |lens| {
      if chunk >= |lens[arch]| {
        WalkCounts(lens, arch + 1, 0);
        assert lens[arch][..chunk] == lens[arch];
        assert lens[..arch + 1][..arch] == lens[..arch];
        assert arch + 1 == |lens| ==> lens[..arch + 1] == lens;
      } else {
        WalkCounts(lens, arch, chunk + 1);
        assert lens[arch][..chunk + 1][..chunk] == lens[arch][..chunk];
        if lens[arch][chunk] > 0 {
          PieceFirst(Piece(arch, chunk, 0, lens[arch][chunk]), ChunksFrom(lens, arch, chunk + 1));
        }
      }
    }
  }

  /** The batches hold every row there is exactly once, in walking order, and no other. */
  lemma BatchesHoldEveryRow(lens: Lengths, amount: nat)
    requires amount >= MIN_BATCH_AMOUNT
    ensures RestOk(ChunksFrom(lens, 0, 0))
    ensures var rows := RowsOfAll(AllBatches(ChunksFrom(lens, 0, 0), amount));
      InOrder(rows) && |rows| == Total(lens) && forall pos :: pos in rows <==> IsRow(lens, pos)
  {
    hide Rows, ChunksFrom, AllBatches, InOrder;
    ChunksOk(lens, 0, 0);
    BatchesCover(ChunksFrom(lens, 0, 0), amount);
    WalkVisitsEveryRow(lens, 0, 0);
    WalkCounts(lens, 0, 0);
  }

  // ---------------------------------------------------------------------------------------------
  // Different batches share no row and no enable byte
  // ---------------------------------------------------------------------------------------------

  function Concat(batches: seq<seq<Piece>>): seq<Piece> {
    if batches == [] then [] else batches[0] + Concat(batches[1..])
  }

  lemma {:induction false} ConcatRows(batches: seq<seq<Piece>>)
    ensures Rows(Concat(batches)) == RowsOfAll(batches)
  {
    if batches != [] {
      ConcatRows(batches[1..]);
      RowsConcat(batches[0], Concat(batches[1..]));
    }
  }

  /** Rows of one chunk come in ascending order. */
  ghost predicate Ascend(rows: seq<RowPos>) {
    forall i, j :: 0 <= i < j < |rows| && rows[i].arch == rows[j].arch && rows[i].chunk == rows[j].chunk ==> rows[i].row < rows[j].row
  }

  ghost predicate Behind(rows: seq<RowPos>, arch: nat, chunk: nat) {
    forall i :: 0 <= i < |rows| ==> rows[i].arch > arch || (rows[i].arch == arch && rows[i].chunk >= chunk)
  }

  /** A walk passes the rows of a chunk in ascending order and never returns to it. */
  lemma {:induction false} WalkAscends(lens: Lengths, arch: nat, chunk: nat)
    ensures Ascend(Rows(ChunksFrom(lens, arch, chunk))) && Behind(Rows(ChunksFrom(lens, arch, chunk)), arch, chunk)
    decreases |lens| - arch, if arch < |lens| then |lens[arch]| - chunk else 0
  {
    hide PieceRows;
    if arch < |lens| {
      if chunk >= |lens[arch]| {
        WalkAscends(lens, arch + 1, 0);
      } else {
        WalkAscends(lens, arch, chunk + 1);
        if lens[arch][chunk] > 0 {
          PieceFirst(Piece(arch, chunk, 0, lens[arch][chunk]), ChunksFrom(lens, arch, chunk + 1));
        }
      }
    }
  }

  /** Where the rows of a piece are among all rows. */
  lemma RowAt(ps: seq<Piece>, i: nat, d: nat)
    requires i < |ps| && ps[i].start <= ps[i].end && d < ps[i].end - ps[i].start
    ensures |Rows(ps[..i])| + d < |Rows(ps)| && Rows(ps)[|Rows(ps[..i])| + d] == RowPos(ps[i].arch, ps[i].chunk, ps[i].start + d)
  {
    hide Rows;
    var before, after := ps[..i], ps[i..];
    assert ps == before + after && after == [ps[i]] + after[1..];
    RowsConcat(before, after);
    PieceFirst(ps[i], after[1..]);
  }

  lemma RowsBefore(ps: seq<Piece>, i: nat, j: nat)
    requires i < j <= |ps| && ps[i].start <= ps[i].end
    ensures |Rows(ps[..i])| + (ps[i].end - ps[i].start) <= |Rows(ps[..j])|
  {
    hide Rows;
    var before := ps[..j];
    assert before == before[..i] + before[i..] && before[i..] == [ps[i]] + before[i + 1..] && before[..i] == ps[..i];
    RowsConcat(before[..i], before[i..]);
    PieceFirst(ps[i], before[i + 1..]);
  }

  /** Pieces that cover ascending rows lie one behind the other. */
  lemma PiecesAscend(ps: seq<Piece>, i: nat, j: nat)
    requires Ascend(Rows(ps)) && i < j < |ps| && ps[i].start < ps[i].end && ps[j].start < ps[j].end
    requires ps[i].arch == ps[j].arch && ps[i].chunk == ps[j].chunk
    ensures ps[i].end <= ps[j].start
  {
    hide Rows;
    RowAt(ps, i, ps[i].end - ps[i].start - 1);
    RowAt(ps, j, 0);
    RowsBefore(ps, i, j);
  }

  /** All pieces of all batches start on the byte grid and have rows. */
  lemma {:induction false} PiecesOnGrid(rest: seq<Piece>, amount: nat)
    requires RestOk(rest) && amount >= MIN_BATCH_AMOUNT
    ensures forall i :: 0 <= i < |Concat(AllBatches(rest, amount))| ==> OnGrid(Concat(AllBatches(rest, amount))[i])
    decreases |Rows(rest)|
  {
    hide Cut, Rows;
    BatchesUnfold(rest, amount);
    if rest != [] {
      var (batch, left) := Cut(rest, amount);
      CutCovers(rest, amount);
      PiecesOnGrid(left, amount);
      assert ([batch] + AllBatches(left, amount))[1..] == AllBatches(left, amount);
    }
  }

  ghost predicate OnGrid(p: Piece) {
    p.start < p.end && p.start % MIN_BATCH_AMOUNT == 0
  }

  /** Where batch `b` begins in the list of all pieces. */
  function Offset(batches: seq<seq<Piece>>, b: nat): nat
    requires b <= |batches|
  {
    if b == 0 then 0 else |batches[0]| + Offset(batches[1..], b - 1)
  }

  lemma {:induction false} PieceIndex(batches: seq<seq<Piece>>, b: nat, k: nat)
    requires b < |batches| && k < |batches[b]|
    ensures Offset(batches, b) + k < |Concat(batches)| && Concat(batches)[Offset(batches, b) + k] == batches[b][k]
  {
    if b > 0 {
      PieceIndex(batches[1..], b - 1, k);
    }
  }

  lemma {:induction false} OffsetsAscend(batches: seq<seq<Piece>>, b: nat, c: nat)
    requires b < c <= |batches|
    ensures Offset(batches, b) + |batches[b]| <= Offset(batches, c)
  {
    if b > 0 {
      OffsetsAscend(batches[1..], b - 1, c - 1);
    } else {
      assert Offset(batches, c) == |batches[0]| + Offset(batches[1..], c - 1);
    }
  }

  /** Two rows in different batches of one query: not the same row, and not even rows of one enable byte. */
  ghost predicate BytesApart(p: Piece, q: Piece) {
    p.arch == q.arch && p.chunk == q.chunk ==>
      forall r, s :: p.start <= r < p.end && q.start <= s < q.end ==> r != s && r / BITS_PER_BYTE != s / BITS_PER_BYTE
  }

  lemma RowsApart(p: Piece, q: Piece, r: nat, s: nat)
    requires BytesApart(p, q) && p.arch == q.arch && p.chunk == q.chunk && p.start <= r < p.end && q.start <= s < q.end
    ensures r != s && r / BITS_PER_BYTE != s / BITS_PER_BYTE
  {
  }

  /** No two batches share an enable byte: what makes flipping bits from several threads safe. */
  lemma BatchesShareNoByte(lens: Lengths, amount: nat, b: nat, c: nat, k: nat, m: nat)
    requires amount >= MIN_BATCH_AMOUNT && RestOk(ChunksFrom(lens, 0, 0))
    requires var all := AllBatches(ChunksFrom(lens, 0, 0), amount); b < |all| && c < |all| && b != c && k < |all[b]| && m < |all[c]|
    ensures var all := AllBatches(ChunksFrom(lens, 0, 0), amount); BytesApart(all[b][k], all[c][m])
  {
    var all := AllBatches(ChunksFrom(lens, 0, 0), amount);
    if b < c {
      EarlierBatch(lens, amount, b, c, k, m);
    } else {
      EarlierBatch(lens, amount, c, b, m, k);
    }
  }

  lemma EarlierBatch(lens: Lengths, amount: nat, b: nat, c: nat, k: nat, m: nat)
    requires amount >= MIN_BATCH_AMOUNT && RestOk(ChunksFrom(lens, 0, 0))
    requires var all := AllBatches(ChunksFrom(lens, 0, 0), amount); b < c < |all| && k < |all[b]| && m < |all[c]|
    ensures var all := AllBatches(ChunksFrom(lens, 0, 0), amount); BytesApart(all[b][k], all[c][m]) && BytesApart(all[c][m], all[b][k])
  {
    hide Cut, ChunksFrom, AllBatches, Rows;
    var rest := ChunksFrom(lens, 0, 0);
    var all := AllBatches(rest, amount);
    WalkAscends(lens, 0, 0);
    BatchesCover(rest, amount);
    ConcatRows(all);
    PiecesOnGrid(rest, amount);
    PieceIndex(all, b, k);
    PieceIndex(all, c, m);
    OffsetsAscend(all, b, c);
    var i, j := Offset(all, b) + k, Offset(all, c) + m;
    if all[b][k].arch == all[c][m].arch && all[b][k].chunk == all[c][m].chunk {
      PiecesAscend(Concat(all), i, j);
      GridApart(all[b][k].end, all[c][m].start);
    }
  }

  lemma GridApart(end: nat, start: nat)
    requires end <= start && start % MIN_BATCH_AMOUNT == 0
    ensures forall r: nat, s: nat :: r < end && start <= s ==> r / BITS_PER_BYTE < s / BITS_PER_BYTE
  {
  }

  // ---------------------------------------------------------------------------------------------
  // The cursor and the iterators on top of it
  // ---------------------------------------------------------------------------------------------

  class ChunkCursor {
    const lens: Lengths
    var archPos: nat
    var arch: Option<nat>  // the archetype being walked, one behind `archPos`
    var chunkIdx: nat

    /** A shape without columns has nothing to walk. */
    constructor (lengths: Lengths, excludeOnly: bool)
      ensures Valid() && lens == (if excludeOnly then [] else lengths) && Ahead() == ChunksFrom(lens, 0, 0)
    {
      lens := if excludeOnly then [] else lengths;
      archPos, arch, chunkIdx := 0, None, 0;
    }

    ghost predicate Valid()
      reads this
    {
      archPos <= |lens| && (arch.Some? ==> archPos == arch.value + 1)
    }

    /** The chunks still to come. */
    ghost function Ahead(): seq<Piece>
      requires Valid()
      reads this
    {
      match arch
      case Some(a) => ChunksFrom(lens, a, chunkIdx)
      case None => ChunksFrom(lens, archPos, 0)
    }

    method NextChunk() returns (r: Option<Piece>)
      requires Valid()
      modifies this
      ensures Valid()
      ensures r == if old(Ahead()) == [] then None else Some(old(Ahead())[0])
      ensures Ahead() == if old(Ahead()) == [] then [] else old(Ahead())[1..]
      ensures r.Some? ==> r.value.start == 0 < r.value.end
    {
      ghost var all := Ahead();
      while true
        invariant Valid() && Ahead() == all
        decreases |lens| - archPos
      {
        if arch.Some? {
          var a := arch.value;
          while chunkIdx < |lens[a]|
            invariant Valid() && Ahead() == all && arch == Some(a) && archPos == a + 1
            decreases |lens[a]| - chunkIdx
          {
            var len := lens[a][chunkIdx];
            chunkIdx := chunkIdx + 1;
            if len == 0 {
              continue;
            }
            assert all == [Piece(a, chunkIdx - 1, 0, len)] + ChunksFrom(lens, a, chunkIdx);
            return Some(Piece(a, chunkIdx - 1, 0, len));
          }
        }
        assert all == ChunksFrom(lens, archPos, 0);
        if archPos >= |lens| {
          return None;
        }
        arch := Some(archPos);
        archPos := archPos + 1;
        chunkIdx := 0;
      }
    }
  }

  /** Every row of a query that passes its filters, one at a time. */
  class QueryIter {
    const cursor: ChunkCursor
    const accepts: RowPos -> bool
    var piece: Piece
    var row: nat
    var end: nat

    constructor (lengths: Lengths, excludeOnly: bool, filter: RowPos -> bool)
      ensures Valid() && fresh(cursor) && accepts == filter
      ensures Remaining() == Rows(ChunksFrom(if excludeOnly then [] else lengths, 0, 0))
    {
      cursor := new ChunkCursor(lengths, excludeOnly);
      accepts, piece, row, end := filter, Piece(0, 0, 0, 0), 0, 0;
    }

    ghost predicate Valid()
      reads this, cursor
    {
      cursor.Valid() && row <= end
    }

    /** The rows still to come, before filters. */
    ghost function Remaining(): seq<RowPos>
      requires Valid()
      reads this, cursor
    {
      PieceRows(Piece(piece.arch, piece.chunk, row, end)) + Rows(cursor.Ahead())
    }

    /** Moves to the next chunk once the current one is walked. */
    method Refill() returns (more: bool)
      requires Valid() && row == end
      modifies this`piece, this`row, this`end, cursor
      ensures Valid() && Remaining() == old(Remaining())
      ensures more ==> row < end
      ensures !more ==> Remaining() == []
    {
      hide ChunksFrom, Rows;
      NoRows();
      ghost var ahead := cursor.Ahead();
      assert Remaining() == Rows(ahead);
      var next := cursor.NextChunk();
      if next.None? {
        return false;
      }
      piece, row, end := next.value, 0, next.value.end;
      assert ahead == [next.value] + cursor.Ahead();
      PieceFirst(next.value, cursor.Ahead());
      return true;
    }

    /** The next row of the current piece. */
    method Take() returns (pos: RowPos)
      requires Valid() && row < end
      modifies this`row
      ensures Valid() && old(Remaining()) == [pos] + Remaining()
    {
      hide ChunkCursor.Ahead, Rows, PieceRows;
      pos := RowPos(piece.arch, piece.chunk, row);
      row := row + 1;
    }

    /** The first accepted row still to come; the rows before it are skipped for good. */
    method Next() returns (r: Option<RowPos>, ghost skipped: seq<RowPos>)
      requires Valid()
      modifies this`piece, this`row, this`end, cursor
      ensures Valid()
      ensures forall k :: 0 <= k < |skipped| ==> !accepts(skipped[k])
      ensures r.Some? ==> accepts(r.value) && old(Remaining()) == skipped + [r.value] + Remaining()
      ensures r.None? ==> old(Remaining()) == skipped && Remaining() == []
    {
      hide ChunkCursor.Ahead, Rows, PieceRows, Remaining, ChunkCursor.Valid;
      skipped := [];
      ghost var all := Remaining();
      while true
        invariant Valid() && all == skipped + Remaining()
        invariant forall k :: 0 <= k < |skipped| ==> !accepts(skipped[k])
        decreases |Remaining()|
      {
        if row == end {
          var more := Refill();
          if !more {
            return None, skipped;
          }
        }
        var pos := Take();
        if accepts(pos) {
          assert all == skipped + [pos] + Remaining();
          return Some(pos), skipped;
        }
        skipped := skipped + [pos];
      }
    }
  }

  /** Taking one row after another gives exactly the rows that pass the filters, in order; without filters, all there are. */
  method Visit(lens: Lengths, excludeOnly: bool, filter: RowPos -> bool) returns (rows: seq<RowPos>)
    ensures InOrder(rows) && forall pos :: pos in rows <==> !excludeOnly && IsRow(lens, pos) && filter(pos)
    ensures !excludeOnly && (forall pos :: filter(pos)) ==> |rows| == Total(lens)
  {
    hide ChunksFrom, Rows, QueryIter.Remaining, QueryIter.Valid, IsRow, InOrder, Passing;
    var iter := new QueryIter(lens, excludeOnly, filter);
    ghost var all := iter.Remaining();
    rows := [];
    ghost var done: seq<RowPos> := [];
    NothingPasses(filter);
    while true
      invariant iter.Valid() && iter.accepts == filter && fresh(iter) && fresh(iter.cursor)
      invariant all == done + iter.Remaining() && rows == Passing(done, filter)
      decreases |iter.Remaining()|
    {
      var r, skipped := iter.Next();
      if r.None? {
        SkippedPassNot(done, skipped, filter);
        assert all == done + skipped;
        break;
      }
      OnePasses(done, skipped, r.value, filter);
      assert all == done + skipped + [r.value] + iter.Remaining();
      rows, done := rows + [r.value], done + skipped + [r.value];
    }
    assert rows == Passing(all, filter);
    VisitedRows(lens, excludeOnly, filter);
  }

  /** What passes of all rows there are to walk. */
  lemma VisitedRows(lens: Lengths, excludeOnly: bool, filter: RowPos -> bool)
    ensures var rows := Passing(Rows(ChunksFrom(if excludeOnly then [] else lens, 0, 0)), filter);
      && InOrder(rows) && (forall pos :: pos in rows <==> !excludeOnly && IsRow(lens, pos) && filter(pos))
      && (!excludeOnly && (forall pos :: filter(pos)) ==> |rows| == Total(lens))
  {
    hide ChunksFrom, Rows, InOrder, Passing;
    var walked := if excludeOnly then [] else lens;
    WalkVisitsEveryRow(walked, 0, 0);
    WalkCounts(walked, 0, 0);
    PassingInOrder(Rows(ChunksFrom(walked, 0, 0)), filter);
  }

  /** The rows that pass the filter, in their order. */
  function Passing(rows: seq<RowPos>, filter: RowPos -> bool): seq<RowPos> {
    if rows == [] then []
    else Passing(rows[..|rows| - 1], filter) + if filter(rows[|rows| - 1]) then [rows[|rows| - 1]] else []
  }

  lemma NothingPasses(filter: RowPos -> bool)
    ensures Passing([], filter) == []
  {
  }

  lemma {:induction false} SkippedPassNot(done: seq<RowPos>, skipped: seq<RowPos>, filter: RowPos -> bool)
    requires forall k :: 0 <= k < |skipped| ==> !filter(skipped[k])
    ensures Passing(done + skipped, filter) == Passing(done, filter)
  {
    if skipped == [] {
      assert done + skipped == done;
    } else {
      var n := |skipped| - 1;
      SkippedPassNot(done, skipped[..n], filter);
      assert (done + skipped)[..|done| + n] == done + skipped[..n];
    }
  }

  lemma OnePasses(done: seq<RowPos>, skipped: seq<RowPos>, pos: RowPos, filter: RowPos -> bool)
    requires filter(pos) && forall k :: 0 <= k < |skipped| ==> !filter(skipped[k])
    ensures Passing(done + skipped + [pos], filter) == Passing(done, filter) + [pos]
  {
    SkippedPassNot(done, skipped, filter);
    assert (done + skipped + [pos])[..|done + skipped|] == done + skipped;
  }

  lemma {:induction false} PassingInOrder(rows: seq<RowPos>, filter: RowPos -> bool)
    requires InOrder(rows)
    ensures InOrder(Passing(rows, filter)) && forall pos :: pos in Passing(rows, filter) <==> pos in rows && filter(pos)
    ensures (forall pos :: filter(pos)) ==> Passing(rows, filter) == rows
  {
    if rows != [] {
      var n := |rows| - 1;
      PassingInOrder(rows[..n], filter);
      assert rows == rows[..n] + [rows[n]];
      if filter(rows[n]) {
        InOrderConcat(Passing(rows[..n], filter), [rows[n]]);
      }
    }
  }

  // ---------------------------------------------------------------------------------------------
  // Batching with a cursor
  // ---------------------------------------------------------------------------------------------

  class QueryBatches {
    const cursor: ChunkCursor
    const batchAmount: nat
    var leftover: Option<Piece>  // a piece cut short: its rows behind the last cut

    constructor (lengths: Lengths, excludeOnly: bool, amount: nat)
      requires amount >= MIN_BATCH_AMOUNT
      ensures Valid() && fresh(cursor) && batchAmount == amount
      ensures Rest() == ChunksFrom(if excludeOnly then [] else lengths, 0, 0)
    {
      ChunksOk(if excludeOnly then [] else lengths, 0, 0);
      cursor := new ChunkCursor(lengths, excludeOnly);
      batchAmount, leftover := amount, None;
    }

    /** What is left to batch. */
    ghost function Rest(): seq<Piece>
      requires cursor.Valid()
      reads this, cursor
    {
      (if leftover.Some? then [leftover.value] else []) + cursor.Ahead()
    }

    ghost predicate Valid()
      reads this, cursor
    {
      cursor.Valid() && RestOk(Rest()) && batchAmount >= MIN_BATCH_AMOUNT
    }

    /** The first piece left, taken out. */
    method TakePiece() returns (r: Option<Piece>)
      requires cursor.Valid() && RestOk(Rest())
      modifies this`leftover, cursor
      ensures cursor.Valid() && leftover == None
      ensures r.None? ==> old(Rest()) == [] && Rest() == []
      ensures r.Some? ==> old(Rest()) == [r.value] + Rest()
    {
      hide ChunkCursor.Ahead, ChunksFrom;
      if leftover.Some? {
        r := leftover;
        leftover := None;
        return;
      }
      ghost var ahead := cursor.Ahead();
      r := cursor.NextChunk();
      assert r.Some? ==> ahead == [ahead[0]] + ahead[1..];
    }

    /** The next batch: the cut of what is left. */
    method Next() returns (r: Option<seq<Piece>>)
      requires Valid()
      modifies this`leftover, cursor
      ensures Valid()
      ensures r == if old(Rest()) == [] then None else Some(Cut(old(Rest()), batchAmount).0)
      ensures Rest() == Cut(old(Rest()), batchAmount).1
    {
      hide ChunkCursor.Ahead, ChunksFrom, SplitAt, Cut, Halfway;
      ghost var all := Rest();
      var ranges: seq<Piece> := [];
      var room: nat := batchAmount;
      HalfwayStart(all, batchAmount);
      while room > 0
        invariant cursor.Valid() && RestOk(Rest()) && Halfway(all, batchAmount, ranges, Rest(), room)
        decreases room
      {
        ghost var rest := Rest();
        var taken := TakePiece();
        if taken.None? {
          break;
        }
        var range := taken.value;
        assert range == rest[0] && rest[1..] == Rest() == cursor.Ahead();
        var split := SplitAt(range, room);
        HalfwayStep(all, batchAmount, ranges, rest, room);
        if split == range.start {
          leftover := taken;
          assert Rest() == rest;
          break;
        }
        if split < range.end {
          leftover := Some(range.(start := split));
          assert Rest() == [range.(start := split)] + rest[1..];
        }
        ranges := ranges + [range.(end := split)];
        room := room - (split - range.start);
      }
      HalfwayEnd(all, batchAmount, ranges, Rest(), room);
      if ranges == [] {
        return None;
      }
      return Some(ranges);
    }
  }

  /** The batch of `all` is `ranges` so far, and goes on with the cut of `rest`. */
  ghost predicate Halfway(all: seq<Piece>, amount: nat, ranges: seq<Piece>, rest: seq<Piece>, room: nat) {
    && RestOk(all) && RestOk(rest) && amount >= MIN_BATCH_AMOUNT
    && Cut(all, amount) == (ranges + Cut(rest, room).0, Cut(rest, room).1)
  }

  lemma HalfwayStart(all: seq<Piece>, amount: nat)
    requires RestOk(all) && amount >= MIN_BATCH_AMOUNT
    ensures Halfway(all, amount, [], all, amount)
  {
    assert [] + Cut(all, amount).0 == Cut(all, amount).0;
  }

  /** One round of the loop: a whole piece, part of one, or nothing more. */
  lemma HalfwayStep(all: seq<Piece>, amount: nat, ranges: seq<Piece>, rest: seq<Piece>, room: nat)
    requires Halfway(all, amount, ranges, rest, room) && rest != [] && room > 0
    ensures var p := rest[0]; var split := SplitAt(p, room); var more := rest[1..];
      && (split == p.start ==> Cut(rest, room) == ([], rest))
      && (p.start < split < p.end ==>
            var left := [p.(start := split)] + more;
            RestOk(left) && Halfway(all, amount, ranges + [p.(end := split)], left, room - (split - p.start)))
      && (split == p.end ==> RestOk(more) && Halfway(all, amount, ranges + [p.(end := split)], more, room - (split - p.start)))
  {
    hide SplitAt;
    var p := rest[0];
    var split, more := SplitAt(p, room), rest[1..];
    if p.start < split < p.end {
      CutInside(rest, room);
      assert ranges + [p.(end := split)] + [] == ranges + [p.(end := split)];
    } else if split == p.end {
      assert p.(end := split) == p;
      assert ranges + ([p] + Cut(more, room - (split - p.start)).0) == (ranges + [p]) + Cut(more, room - (split - p.start)).0;
    }
  }

  /** When the loop ends the ranges are the batch; there are none only when there was nothing to batch. */
  lemma HalfwayEnd(all: seq<Piece>, amount: nat, ranges: seq<Piece>, rest: seq<Piece>, room: nat)
    requires Halfway(all, amount, ranges, rest, room)
    requires room == 0 || rest == [] || Cut(rest, room) == ([], rest)
    ensures Cut(all, amount) == (ranges, rest)
    ensures ranges == [] <==> all == []
  {
    assert Cut(rest, room) == ([], rest) && ranges + [] == ranges;
    if all != [] {
      CutProgress(all, amount);
    }
  }

  /** After a cut inside a chunk there is no room left for another byte of rows. */
  lemma CutInside(rest: seq<Piece>, room: nat)
    requires RestOk(rest) && room > 0 && rest != []
    requires rest[0].start < SplitAt(rest[0], room) < rest[0].end
    ensures var split := SplitAt(rest[0], room); var p := rest[0].(start := split); var left := [p] + rest[1..];
            RestOk(left) && Cut(left, room - (split - rest[0].start)) == ([], left)
  {
    var split := SplitAt(rest[0], room);
    var p := rest[0].(start := split);
    var more := room - (split - rest[0].start);
    assert ([p] + rest[1..])[1..] == rest[1..];
    if more > 0 {
      assert SplitAt(p, more) == split by {
        assert p.start % MIN_BATCH_AMOUNT == 0 && more < MIN_BATCH_AMOUNT;
      }
    }
  }

  /** The batches of a query, one call of `Next` after another. */
  method Drain(batches: QueryBatches) returns (all: seq<seq<Piece>>)
    requires batches.Valid()
    modifies batches`leftover, batches.cursor
    ensures all == AllBatches(old(batches.Rest()), batches.batchAmount)
  {
    hide QueryBatches.Rest, Cut, AllBatches, Rows, RestOk;
    ghost var rest0, amount := batches.Rest(), batches.batchAmount;
    all := [];
    while true
      invariant batches.Valid()
      invariant AllBatches(rest0, amount) == all + AllBatches(batches.Rest(), amount)
      decreases |Rows(batches.Rest())|
    {
      OneMoreBatch(all, batches.Rest(), amount);
      var batch := batches.Next();
      if batch.None? {
        return;
      }
      all := all + [batch.value];
    }
  }

  // ---------------------------------------------------------------------------------------------
  // Batching without a cursor
  // ---------------------------------------------------------------------------------------------

  /** A row a batch may start at. */
  ghost predicate PosOk(lens: Lengths, pos: RowPos) {
    pos.arch < |lens| && pos.chunk < |lens[pos.arch]| && pos.row < lens[pos.arch][pos.chunk] && pos.row % MIN_BATCH_AMOUNT == 0
  }

  /** Everything from a row on. */
  ghost function RestFrom(lens: Lengths, pos: Option<RowPos>): (rest: seq<Piece>)
    requires pos.Some? ==> PosOk(lens, pos.value)
    ensures RestOk(rest)
  {
    match pos
    case None => []
    case Some(p) =>
      ChunksOk(lens, p.arch, p.chunk + 1);
      [Piece(p.arch, p.chunk, p.row, lens[p.arch][p.chunk])] + ChunksFrom(lens, p.arch, p.chunk + 1)
  }

  /** A walk without state: where it goes next depends on where it is alone. */
  class ParWalker {
    const lens: Lengths

    constructor (lengths: Lengths, excludeOnly: bool)
      ensures lens == if excludeOnly then [] else lengths
    {
      lens := if excludeOnly then [] else lengths;
    }

    /** Skips empty chunks: what is left to walk from the result is what is left to walk from here. */
    method NextNonEmpty(arch: nat, chunk: nat) returns (r: Option<RowPos>)
      ensures r.Some? ==> PosOk(lens, r.value) && r.value.row == 0
      ensures RestFrom(lens, r) == ChunksFrom(lens, arch, chunk)
    {
      var archPos: nat, chunkIdx: nat := arch, chunk;
      while archPos < |lens|
        invariant ChunksFrom(lens, archPos, chunkIdx) == ChunksFrom(lens, arch, chunk)
        decreases |lens| - archPos
      {
        while chunkIdx < |lens[archPos]|
          invariant archPos < |lens| && ChunksFrom(lens, archPos, chunkIdx) == ChunksFrom(lens, arch, chunk)
          decreases |lens[archPos]| - chunkIdx
        {
          if lens[archPos][chunkIdx] != 0 {
            return Some(RowPos(archPos, chunkIdx, 0));
          }
          chunkIdx := chunkIdx + 1;
        }
        archPos := archPos + 1;
        chunkIdx := 0;
      }
      return None;
    }

    /** One start for each piece of the walk, in walking order. */
    method ChunkStarts() returns (starts: seq<RowPos>)
      ensures |starts| == |ChunksFrom(lens, 0, 0)|
      ensures forall i :: 0 <= i < |starts| ==> starts[i] == RowPos(ChunksFrom(lens, 0, 0)[i].arch, ChunksFrom(lens, 0, 0)[i].chunk, 0)
    {
      starts := [];
      ghost var all := ChunksFrom(lens, 0, 0);
      var next := NextNonEmpty(0, 0);
      assert all[0..] == all;
      while next.Some?
        invariant next.Some? ==> PosOk(lens, next.value) && next.value.row == 0
        invariant |starts| <= |all| && RestFrom(lens, next) == all[|starts|..]
        invariant forall i :: 0 <= i < |starts| ==> starts[i] == RowPos(all[i].arch, all[i].chunk, 0)
        decreases |all| - |starts|
      {
        var pos := next.value;
        assert all[|starts|..][1..] == all[|starts| + 1..];
        next := NextNonEmpty(pos.arch, pos.chunk + 1);
        starts := starts + [pos];
      }
    }

    /** One cut of what is left from `start`, and a position that stands for the remainder. */
    method CutBatch(start: RowPos, amount: nat) returns (pieces: seq<Piece>, next: Option<RowPos>)
      requires PosOk(lens, start) && amount >= MIN_BATCH_AMOUNT
      ensures next.Some? ==> PosOk(lens, next.value)
      ensures Cut(RestFrom(lens, Some(start)), amount) == (pieces, RestFrom(lens, next))
    {
      hide ChunksFrom, SplitAt, Cut, Halfway;
      ghost var all := RestFrom(lens, Some(start));
      var pos := start;
      var room: nat := amount;
      pieces := [];
      HalfwayStart(all, amount);
      while room > 0
        invariant PosOk(lens, pos) && Halfway(all, amount, pieces, RestFrom(lens, Some(pos)), room)
        decreases room
      {
        ghost var rest := RestFrom(lens, Some(pos));
        var len := lens[pos.arch][pos.chunk];
        var piece := Piece(pos.arch, pos.chunk, pos.row, len);
        assert rest[0] == piece && rest[1..] == ChunksFrom(lens, pos.arch, pos.chunk + 1);
        var split := SplitAt(piece, room);
        HalfwayStep(all, amount, pieces, rest, room);
        if split == pos.row {
          HalfwayEnd(all, amount, pieces, rest, room);
          return pieces, Some(pos);
        }
        pieces := pieces + [piece.(end := split)];
        if split < len {
          CutInside(rest, room);
          ghost var left := [piece.(start := split)] + rest[1..];
          assert RestFrom(lens, Some(RowPos(pos.arch, pos.chunk, split))) == left;
          HalfwayEnd(all, amount, pieces, left, room - (split - pos.row));
          return pieces, Some(RowPos(pos.arch, pos.chunk, split));
        }
        room := room - (split - pos.row);
        next := NextNonEmpty(pos.arch, pos.chunk + 1);
        if next.None? {
          HalfwayEnd(all, amount, pieces, [], room);
          return;
        }
        pos := next.value;
      }
      HalfwayEnd(all, amount, pieces, RestFrom(lens, Some(pos)), room);
      next := Some(pos);
    }

    /** Where every batch starts: walking from there gives the batches of `QueryBatches`, one for one. */
    method BatchStarts(amount: nat) returns (starts: seq<RowPos>)
      requires amount >= MIN_BATCH_AMOUNT
      ensures RestOk(ChunksFrom(lens, 0, 0)) && |starts| == |AllBatches(ChunksFrom(lens, 0, 0), amount)|
      ensures forall i :: 0 <= i < |starts| ==>
        PosOk(lens, starts[i]) && Cut(RestFrom(lens, Some(starts[i])), amount).0 == AllBatches(ChunksFrom(lens, 0, 0), amount)[i]
    {
      hide ChunksFrom, Cut, AllBatches, Rows, RestOk;
      ChunksOk(lens, 0, 0);
      starts := [];
      ghost var all := AllBatches(ChunksFrom(lens, 0, 0), amount);
      var next := NextNonEmpty(0, 0);
      ghost var done: seq<seq<Piece>> := [];
      while next.Some?
        invariant next.Some? ==> PosOk(lens, next.value)
        invariant all == done + AllBatches(RestFrom(lens, next), amount) && |starts| == |done|
        invariant forall i :: 0 <= i < |starts| ==> PosOk(lens, starts[i]) && Cut(RestFrom(lens, Some(starts[i])), amount).0 == done[i]
        decreases |Rows(RestFrom(lens, next))|
      {
        OneMoreBatch(done, RestFrom(lens, next), amount);
        var pos := next.value;
        var batch;
        batch, next := CutBatch(pos, amount);
        starts, done := starts + [pos], done + [batch];
      }
      OneMoreBatch(done, [], amount);
    }
  }

  /** Both ways of batching cut the same batches, whatever the chunk lengths. */
  method BatchBothWays(lens: Lengths, excludeOnly: bool, amount: nat) returns (cursors: seq<seq<Piece>>, walks: seq<seq<Piece>>)
    requires amount >= MIN_BATCH_AMOUNT
    ensures RestOk(ChunksFrom(if excludeOnly then [] else lens, 0, 0))
    ensures cursors == AllBatches(ChunksFrom(if excludeOnly then [] else lens, 0, 0), amount) == walks
    ensures InOrder(RowsOfAll(walks)) && forall pos :: pos in RowsOfAll(walks) <==> !excludeOnly && IsRow(lens, pos)
    ensures |RowsOfAll(walks)| == if excludeOnly then 0 else Total(lens)
  {
    hide ChunksFrom, Cut, AllBatches, RestOk, Rows, RestFrom, QueryBatches.Rest, ChunkCursor.Ahead, RowsOfAll, InOrder;
    var batches := new QueryBatches(lens, excludeOnly, amount);
    cursors := Drain(batches);
    var walker := new ParWalker(lens, excludeOnly);
    var starts := walker.BatchStarts(amount);
    ghost var all := AllBatches(ChunksFrom(walker.lens, 0, 0), amount);
    walks := [];
    for i := 0 to |starts|
      invariant |walks| == i && forall k :: 0 <= k < i ==> walks[k] == all[k]
    {
      var pieces, _ := walker.CutBatch(starts[i], amount);
      walks := walks + [pieces];
    }
    BatchesHoldEveryRow(walker.lens, amount);
  }
}
