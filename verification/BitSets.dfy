/** Component ids packed 64 to a word: the word operations refine operations on mathematical sets. */
module BitSets {
  import opened Prelude

  const BITS_PER_WORD: nat := 64

  // ---------------------------------------------------------------------------------------------
  // One word. The bit-vector facts stay in the lemmas about single steps.
  // ---------------------------------------------------------------------------------------------

  function Half(w: bv64): bv64 { w >> 1 }
  function Double(w: bv64): bv64 { w << 1 }
  predicate Odd(w: bv64) { w & 1 == 1 }
  function And(a: bv64, b: bv64): bv64 { a & b }
  function Or(a: bv64, b: bv64): bv64 { a | b }
  function Minus(a: bv64, b: bv64): bv64 { a & !b }
  function Shift8(w: bv64): bv64 { w >> 8 }
  /** `current & (current - 1)` */
  function WithoutLowest(w: bv64): bv64 { if w == 0 then 0 else w & (w - 1) }

  /** Bit `i` of a word, counted from the lowest. */
  predicate Bit(w: bv64, i: nat) {
    if i == 0 then Odd(w) else Bit(Half(w), i - 1)
  }

  /** `1u64 << i` */
  function OneBit(i: nat): bv64 {
    if i == 0 then 1 else Double(OneBit(i - 1))
  }

  /** The word has no bit at `n` or above. */
  predicate Below(w: bv64, n: nat) {
    if n == 0 then w == 0 else Below(Half(w), n - 1)
  }

  lemma HalfZero()
    ensures Half(0) == 0 && !Odd(0)
  {
  }

  lemma HalfAnd(a: bv64, b: bv64)
    ensures Half(And(a, b)) == And(Half(a), Half(b)) && (Odd(And(a, b)) <==> Odd(a) && Odd(b))
  {
  }

  lemma HalfOr(a: bv64, b: bv64)
    ensures Half(Or(a, b)) == Or(Half(a), Half(b)) && (Odd(Or(a, b)) <==> Odd(a) || Odd(b))
  {
  }

  lemma HalfMinus(a: bv64, b: bv64)
    ensures Half(Minus(a, b)) == Minus(Half(a), Half(b)) && (Odd(Minus(a, b)) <==> Odd(a) && !Odd(b))
  {
  }

  lemma HalvesDecide(w: bv64)
    ensures w == 0 <==> Half(w) == 0 && !Odd(w)
  {
  }

  lemma HalfDouble(w: bv64)
    requires w & 0x8000_0000_0000_0000 == 0
    ensures Half(Double(w)) == w && !Odd(Double(w))
  {
  }

  lemma EightHalves(w: bv64)
    ensures Half(Half(Half(Half(Half(Half(Half(Half(w)))))))) == Shift8(w)
  {
  }

  lemma EightShifts(w: bv64)
    ensures Shift8(Shift8(Shift8(Shift8(Shift8(Shift8(Shift8(Shift8(w)))))))) == 0
  {
  }

  lemma TopBit(w: bv64)
    requires Half(Half(Half(Half(Half(Half(Half(Shift8(Shift8(Shift8(Shift8(Shift8(Shift8(Shift8(w)))))))))))))) == 0
    ensures w & 0x8000_0000_0000_0000 == 0
  {
  }

  lemma HalfWithoutLowest(w: bv64)
    ensures Odd(w) ==> Half(WithoutLowest(w)) == Half(w)
    ensures !Odd(w) ==> Half(WithoutLowest(w)) == WithoutLowest(Half(w))
    ensures !Odd(WithoutLowest(w))
  {
  }

  lemma {:induction false} ZeroHasNoBits(i: nat)
    ensures !Bit(0, i)
  {
    hide Half, Odd;
    HalfZero();
    if i > 0 {
      ZeroHasNoBits(i - 1);
    }
  }

  lemma {:induction false} AndBits(a: bv64, b: bv64, i: nat)
    ensures Bit(And(a, b), i) <==> Bit(a, i) && Bit(b, i)
    decreases i
  {
    hide Half, Odd, And;
    HalfAnd(a, b);
    if i > 0 {
      AndBits(Half(a), Half(b), i - 1);
    }
  }

  lemma {:induction false} OrBits(a: bv64, b: bv64, i: nat)
    ensures Bit(Or(a, b), i) <==> Bit(a, i) || Bit(b, i)
    decreases i
  {
    hide Half, Odd, Or;
    HalfOr(a, b);
    if i > 0 {
      OrBits(Half(a), Half(b), i - 1);
    }
  }

  lemma {:induction false} MinusBits(a: bv64, b: bv64, i: nat)
    ensures Bit(Minus(a, b), i) <==> Bit(a, i) && !Bit(b, i)
    decreases i
  {
    hide Half, Odd, Minus;
    HalfMinus(a, b);
    if i > 0 {
      MinusBits(Half(a), Half(b), i - 1);
    }
  }

  lemma ByteBelow(w: bv64, n: nat)
    ensures Below(w, n + 8) <==> Below(Shift8(w), n)
  {
    hide Half, Shift8;
    EightHalves(w);
    var w4 := Half(Half(Half(Half(w))));
    assert Below(w, n + 8) == Below(Half(w), n + 7) == Below(Half(Half(w)), n + 6) == Below(Half(Half(Half(w))), n + 5) == Below(w4, n + 4);
    assert Below(w4, n + 4) == Below(Half(w4), n + 3) == Below(Half(Half(w4)), n + 2) == Below(Half(Half(Half(w4))), n + 1)
        == Below(Half(Half(Half(Half(w4)))), n);
  }

  function ShiftBytes(w: bv64, k: nat): bv64 {
    if k == 0 then w else Shift8(ShiftBytes(w, k - 1))
  }

  lemma {:induction false} BytesBelow(w: bv64, k: nat, n: nat)
    ensures Below(w, n + 8 * k) <==> Below(ShiftBytes(w, k), n)
  {
    hide Half, Shift8;
    if k > 0 {
      BytesBelow(w, k - 1, n + 8);
      ByteBelow(ShiftBytes(w, k - 1), n);
    }
  }

  /** Every word is below 64. */
  lemma WordBelow(w: bv64)
    ensures Below(w, 64)
  {
    hide Half, Shift8;
    BytesBelow(w, 8, 0);
    SevenShifts(w);
    EightShifts(w);
  }

  lemma SevenShifts(w: bv64)
    ensures ShiftBytes(w, 7) == Shift8(Shift8(Shift8(Shift8(Shift8(Shift8(Shift8(w)))))))
  {
    hide Half, Shift8;
    assert ShiftBytes(w, 1) == Shift8(w);
    assert ShiftBytes(w, 2) == Shift8(ShiftBytes(w, 1));
    assert ShiftBytes(w, 3) == Shift8(ShiftBytes(w, 2));
    assert ShiftBytes(w, 4) == Shift8(ShiftBytes(w, 3));
    assert ShiftBytes(w, 5) == Shift8(ShiftBytes(w, 4));
    assert ShiftBytes(w, 6) == Shift8(ShiftBytes(w, 5));
  }

  lemma SevenHalves(v: bv64)
    requires Below(v, 7)
    ensures Half(Half(Half(Half(Half(Half(Half(v))))))) == 0
  {
    hide Half;
    var v3 := Half(Half(Half(v)));
    assert Below(Half(v), 6) && Below(Half(Half(v)), 5) && Below(v3, 4);
    assert Below(Half(v3), 3) && Below(Half(Half(v3)), 2) && Below(Half(Half(Half(v3))), 1) && Below(Half(Half(Half(Half(v3)))), 0);
  }

  /** A word below 63 has its top bit clear. */
  lemma Below63(w: bv64)
    requires Below(w, 63)
    ensures w & 0x8000_0000_0000_0000 == 0
  {
    hide *;
    BytesBelow(w, 7, 7);
    SevenShifts(w);
    SevenHalves(ShiftBytes(w, 7));
    TopBit(w);
  }

  lemma {:induction false} BelowMore(w: bv64, n: nat, m: nat)
    requires Below(w, n) && n <= m
    ensures Below(w, m)
    decreases m
  {
    hide Half;
    HalfZero();
    if n > 0 {
      BelowMore(Half(w), n - 1, m - 1);
    } else if m > 0 {
      BelowMore(0, 0, m - 1);
    }
  }

  /** `1u64 << i` has bit `i` and no other. */
  lemma {:induction false} OneBitIs(i: nat)
    requires i < BITS_PER_WORD
    ensures Below(OneBit(i), i + 1)
    ensures forall j :: Bit(OneBit(i), j) <==> j == i
  {
    hide Half, Odd, Double;
    if i == 0 {
      OneIsOdd();
      forall j | j > 0
        ensures !Bit(1, j)
      {
        ZeroHasNoBits(j - 1);
      }
    } else {
      OneBitIs(i - 1);
      BelowMore(OneBit(i - 1), i, 63);
      Below63(OneBit(i - 1));
      HalfDouble(OneBit(i - 1));
    }
  }

  lemma OneIsOdd()
    ensures Odd(1) && Half(1) == 0
  {
  }

  /** A word is zero exactly when it has none of its 64 bits. */
  lemma ZeroIff(w: bv64)
    ensures w == 0 <==> forall i :: 0 <= i < BITS_PER_WORD ==> !Bit(w, i)
  {
    WordBelow(w);
    ZeroBelow(w, BITS_PER_WORD);
  }

  lemma BitOfHalf(w: bv64, i: nat)
    ensures Bit(w, i + 1) <==> Bit(Half(w), i)
  {
  }

  lemma FirstBit(w: bv64, i: nat)
    requires i == 0
    ensures Bit(w, i) <==> Odd(w)
  {
  }

  lemma {:induction false} ZeroBelow(w: bv64, n: nat)
    requires Below(w, n)
    ensures w == 0 <==> forall i :: 0 <= i < n ==> !Bit(w, i)
    decreases n
  {
    hide Half, Odd;
    HalvesDecide(w);
    if w == 0 {
      forall i: nat
        ensures !Bit(w, i)
      {
        ZeroHasNoBits(i);
      }
    } else {
      ZeroBelow(Half(w), n - 1);
      if Half(w) != 0 {
        var i :| 0 <= i < n - 1 && Bit(Half(w), i);
        BitOfHalf(w, i);
        assert Bit(w, i + 1) && 0 <= i + 1 < n;
      } else {
        FirstBit(w, 0);
        assert exists i :: 0 <= i < n && Bit(w, i);
      }
    }
  }

  /** `trailing_zeros` of a word that is not zero. */
  function TrailingZeros(w: bv64, n: nat): (i: nat)
    requires Below(w, n) && w != 0
    ensures i < n
    decreases n
  {
    HalvesDecide(w);
    if Odd(w) then 0 else 1 + TrailingZeros(Half(w), n - 1)
  }

  /** The lowest bit, and what clearing it leaves. */
  lemma {:induction false} LowestBit(w: bv64, n: nat)
    requires Below(w, n) && w != 0
    ensures var t := TrailingZeros(w, n);
      && Bit(w, t) && (forall i :: 0 <= i < t ==> !Bit(w, i))
      && forall i: nat :: Bit(WithoutLowest(w), i) <==> Bit(w, i) && i != t
    decreases n
  {
    hide Half, Odd, WithoutLowest;
    HalvesDecide(w);
    HalfWithoutLowest(w);
    if !Odd(w) {
      LowestBit(Half(w), n - 1);
      forall i: nat
        ensures i > 0 ==> (Bit(WithoutLowest(w), i) <==> Bit(WithoutLowest(Half(w)), i - 1))
      {
      }
    }
  }

  // ---------------------------------------------------------------------------------------------
  // Sequences of words as sets of ids
  // ---------------------------------------------------------------------------------------------

  predicate InWords(words: seq<bv64>, id: nat) {
    id / BITS_PER_WORD < |words| && Bit(words[id / BITS_PER_WORD], id % BITS_PER_WORD)
  }

  ghost function IdsIn(words: seq<bv64>): (s: set<nat>)
    ensures forall id :: id in s <==> InWords(words, id)
  {
    set id: nat | 0 <= id < |words| * BITS_PER_WORD && InWords(words, id)
  }

  /** An id by its word and its bit. */
  lemma IdParts(word: nat, bit: nat)
    requires bit < BITS_PER_WORD
    ensures (word * BITS_PER_WORD + bit) / BITS_PER_WORD == word && (word * BITS_PER_WORD + bit) % BITS_PER_WORD == bit
  {
  }

  function Resized(words: seq<bv64>, n: nat): (r: seq<bv64>)
    ensures |r| == Max(|words|, n)
    ensures forall i :: 0 <= i < |r| ==> r[i] == if i < |words| then words[i] else 0
  {
    if |words| >= n then words else words + seq(n - |words|, _ => 0)
  }

  lemma ResizedKeeps(words: seq<bv64>, n: nat)
    ensures IdsIn(Resized(words, n)) == IdsIn(words)
  {
    hide Bit;
    forall id: nat
      ensures InWords(Resized(words, n), id) <==> InWords(words, id)
    {
      ZeroHasNoBits(id % BITS_PER_WORD);
    }
  }

  /** Two words are disjoint when their `&` is zero; one is inside the other when `&` with the complement is zero. */
  lemma WordTests(a: bv64, b: bv64)
    ensures And(a, b) == 0 <==> forall i :: 0 <= i < BITS_PER_WORD ==> !(Bit(a, i) && Bit(b, i))
    ensures Minus(a, b) == 0 <==> forall i :: 0 <= i < BITS_PER_WORD ==> (Bit(a, i) ==> Bit(b, i))
  {
    hide Bit, And, Minus;
    ZeroIff(And(a, b));
    ZeroIff(Minus(a, b));
    forall i | 0 <= i < BITS_PER_WORD
      ensures Bit(And(a, b), i) <==> Bit(a, i) && Bit(b, i)
      ensures Bit(Minus(a, b), i) <==> Bit(a, i) && !Bit(b, i)
      ensures And(a, b) == 0 ==> !(Bit(a, i) && Bit(b, i))
      ensures Minus(a, b) == 0 ==> (Bit(a, i) ==> Bit(b, i))
    {
      AndBits(a, b, i);
      MinusBits(a, b, i);
    }
    if And(a, b) != 0 {
      var i :| 0 <= i < BITS_PER_WORD && Bit(And(a, b), i);
      assert exists j :: 0 <= j < BITS_PER_WORD && Bit(a, j) && Bit(b, j);
    }
    if Minus(a, b) != 0 {
      var i :| 0 <= i < BITS_PER_WORD && Bit(Minus(a, b), i);
      assert exists j :: 0 <= j < BITS_PER_WORD && Bit(a, j) && !Bit(b, j);
    }
  }

  /** Testing against one bit reads that bit. */
  lemma BitTest(w: bv64, i: nat)
    requires i < BITS_PER_WORD
    ensures And(w, OneBit(i)) != 0 <==> Bit(w, i)
  {
    hide Bit, And, OneBit;
    WordTests(w, OneBit(i));
    OneBitIs(i);
  }

  lemma WordOf(words: seq<bv64>, k: nat, i: nat)
    requires k < |words| && i < BITS_PER_WORD
    ensures k * BITS_PER_WORD + i in IdsIn(words) <==> Bit(words[k], i)
  {
    hide Bit;
    IdParts(k, i);
  }

  class ComponentBitSet {
    var words: seq<bv64>

    constructor ()
      ensures Ids() == {}
    {
      words := [];
    }

    /** The set of ids the words stand for. */
    ghost function Ids(): (s: set<nat>)
      reads this
      ensures s == IdsIn(words)
    {
      IdsIn(words)
    }

    method IsEmpty() returns (r: bool)
      ensures r <==> Ids() == {}
    {
      hide Bit, IdsIn;
      for k := 0 to |words|
        invariant forall j :: 0 <= j < k ==> words[j] == 0
      {
        if words[k] != 0 {
          ZeroIff(words[k]);
          var i :| 0 <= i < BITS_PER_WORD && Bit(words[k], i);
          WordOf(words, k, i);
          return false;
        }
      }
      forall id: nat
        ensures !InWords(words, id)
      {
        ZeroHasNoBits(id % BITS_PER_WORD);
      }
      return true;
    }

    method Insert(id: nat)
      modifies this
      ensures Ids() == old(Ids()) + {id}
    {
      hide Bit, Or, OneBit, Resized;
      var word, bit := id / BITS_PER_WORD, id % BITS_PER_WORD;
      ResizedKeeps(words, word + 1);
      words := Resized(words, word + 1);
      ghost var before := words;
      words := words[word := Or(words[word], OneBit(bit))];
      OneBitIs(bit);
      forall x: nat
        ensures InWords(words, x) <==> InWords(before, x) || x == id
      {
        OrBits(before[word], OneBit(bit), x % BITS_PER_WORD);
        if x / BITS_PER_WORD == word && x % BITS_PER_WORD == bit {
          assert x == id;
        }
      }
    }

    method Remove(id: nat)
      modifies this
      ensures Ids() == old(Ids()) - {id}
    {
      hide Bit, Minus, OneBit;
      var word, bit := id / BITS_PER_WORD, id % BITS_PER_WORD;
      ghost var before := words;
      if word < |words| {
        words := words[word := Minus(words[word], OneBit(bit))];
        OneBitIs(bit);
        forall x: nat
          ensures InWords(words, x) <==> InWords(before, x) && x != id
        {
          MinusBits(before[word], OneBit(bit), x % BITS_PER_WORD);
          if x / BITS_PER_WORD == word && x % BITS_PER_WORD == bit {
            assert x == id;
          }
        }
      }
    }

    method Contains(id: nat) returns (r: bool)
      ensures r <==> id in Ids()
    {
      hide Bit, And, OneBit;
      var word, bit := id / BITS_PER_WORD, id % BITS_PER_WORD;
      if word >= |words| {
        return false;
      }
      BitTest(words[word], bit);
      return And(words[word], OneBit(bit)) != 0;
    }

    /** Words past the shorter set would only meet zeros, so the walk stops there. */
    method IsDisjoint(other: ComponentBitSet) returns (r: bool)
      ensures r <==> Ids() !! other.Ids()
    {
      hide Bit, And, IdsIn;
      for k := 0 to Min(|words|, |other.words|)
        invariant forall j :: 0 <= j < k ==> And(words[j], other.words[j]) == 0
      {
        if And(words[k], other.words[k]) != 0 {
          WordTests(words[k], other.words[k]);
          var i :| 0 <= i < BITS_PER_WORD && Bit(words[k], i) && Bit(other.words[k], i);
          WordOf(words, k, i);
          WordOf(other.words, k, i);
          return false;
        }
      }
      forall id: nat
        ensures !(InWords(words, id) && InWords(other.words, id))
      {
        if id / BITS_PER_WORD < Min(|words|, |other.words|) {
          var k, i := id / BITS_PER_WORD, id % BITS_PER_WORD;
          assert And(words[k], other.words[k]) == 0;
          WordTests(words[k], other.words[k]);
          assert !(Bit(words[k], i) && Bit(other.words[k], i));
        }
      }
      return true;
    }

    method Intersects(other: ComponentBitSet) returns (r: bool)
      ensures r <==> Ids() * other.Ids() != {}
    {
      var disjoint := IsDisjoint(other);
      r := !disjoint;
      if r {
        ghost var id :| id in Ids() && id in other.Ids();
        assert id in Ids() * other.Ids();
      }
    }

    /** A word this set does not have counts as zero. */
    method ContainsAll(other: ComponentBitSet) returns (r: bool)
      ensures r <==> other.Ids() <= Ids()
    {
      hide Bit, Minus, IdsIn;
      for k := 0 to |other.words|
        invariant forall j :: 0 <= j < k ==> Minus(other.words[j], WordAt(words, j)) == 0
      {
        if Minus(other.words[k], WordAt(words, k)) != 0 {
          WordTests(other.words[k], WordAt(words, k));
          var i :| 0 <= i < BITS_PER_WORD && Bit(other.words[k], i) && !Bit(WordAt(words, k), i);
          WordOf(other.words, k, i);
          IdParts(k, i);
          assert k * BITS_PER_WORD + i !in Ids();
          return false;
        }
      }
      forall id: nat | InWords(other.words, id)
        ensures InWords(words, id)
      {
        var k, i := id / BITS_PER_WORD, id % BITS_PER_WORD;
        WordTests(other.words[k], WordAt(words, k));
        ZeroHasNoBits(i);
        assert 0 <= i < BITS_PER_WORD && Bit(other.words[k], i) && Bit(WordAt(words, k), i);
      }
      return true;
    }

    method UnionWith(other: ComponentBitSet)
      modifies this
      ensures Ids() == old(Ids()) + old(other.Ids())
    {
      hide Bit, Or, Resized, IdsIn;
      ghost var theirs := other.words;
      ResizedKeeps(words, |other.words|);
      var mine, others := Resized(words, |other.words|), other.words;
      words := mine;
      for k := 0 to |others|
        invariant |words| == |mine| >= |others|
        invariant forall j :: 0 <= j < |mine| ==> words[j] == if j < k then Or(mine[j], others[j]) else mine[j]
      {
        words := words[k := Or(words[k], others[k])];
      }
      forall id: nat
        ensures InWords(words, id) <==> InWords(mine, id) || InWords(others, id)
      {
        if id / BITS_PER_WORD < |others| {
          OrBits(mine[id / BITS_PER_WORD], others[id / BITS_PER_WORD], id % BITS_PER_WORD);
        }
      }
    }
  }

  function WordAt(words: seq<bv64>, k: nat): bv64 {
    if k < |words| then words[k] else 0
  }

  /** Walks the ids of a set upwards. */
  class ComponentBitSetIter {
    const words: seq<bv64>
    var wordIdx: nat
    var current: bv64

    constructor (w: seq<bv64>)
      ensures words == w && Remaining() == IdsIn(w)
    {
      words, wordIdx, current := w, 0, WordAt(w, 0);
      new;
      hide Bit;
      forall id: nat
        ensures Ahead(id) <==> InWords(words, id)
      {
        ZeroHasNoBits(id % BITS_PER_WORD);
      }
    }

    /** `id` is still to come: a bit of the current word, or in a later word. */
    predicate Ahead(id: nat)
      reads this
    {
      if id / BITS_PER_WORD == wordIdx then Bit(current, id % BITS_PER_WORD)
      else id / BITS_PER_WORD > wordIdx && InWords(words, id)
    }

    ghost function Remaining(): (s: set<nat>)
      reads this
      ensures forall id :: id in s <==> Ahead(id)
    {
      set id: nat | 0 <= id < Max(|words|, wordIdx + 1) * BITS_PER_WORD && Ahead(id)
    }

    /** Yields the least id still to come and drops it; so every id comes once, in ascending order. */
    method Next() returns (r: Option<nat>)
      modifies this
      ensures r.None? <==> old(Remaining()) == {}
      ensures r.Some? ==> r.value in old(Remaining()) && forall id :: id in old(Remaining()) ==> r.value <= id
      ensures Remaining() == old(Remaining()) - if r.Some? then {r.value} else {}
    {
      hide Bit, WithoutLowest, TrailingZeros, Below;
      ghost var all := Remaining();
      while true
        invariant Remaining() == all
        decreases |words| - wordIdx
      {
        if current != 0 {
          WordBelow(current);
          var bit := TrailingZeros(current, BITS_PER_WORD);
          LowestBit(current, BITS_PER_WORD);
          IdParts(wordIdx, bit);
          r := Some(wordIdx * BITS_PER_WORD + bit);
          assert r.value in all;
          ghost var before := current;
          current := WithoutLowest(current);
          forall id: nat
            ensures Ahead(id) <==> id in all && id != r.value
            ensures id in all ==> r.value <= id
          {
            assert id / BITS_PER_WORD == wordIdx ==> (id in all <==> Bit(before, id % BITS_PER_WORD));
          }
          return;
        }
        forall i: nat
          ensures !Bit(current, i)
        {
          ZeroHasNoBits(i);
        }
        wordIdx := wordIdx + 1;
        if wordIdx >= |words| {
          return None;
        }
        current := words[wordIdx];
      }
    }
  }
}
