/** Entity handles: a slot index and a version packed into one 64-bit word. */
module Entities {
  import opened Prelude

  const IDX_RANGE: nat := 0x100_0000_0000
  const VERSION_RANGE: nat := 0x100_0000
  const MAX_IDX: nat := IDX_RANGE - 1
  const MAX_VERSION: nat := VERSION_RANGE - 1
  const INITIAL_VERSION: nat := 1

  type Word = n: nat | n <= USIZE_MAX

  datatype EntityError = EntityAmountOverflow | EntityVersionOverflow

  /** Bits 0..40 hold the index, bits 40..64 the version. */
  datatype Entity = Entity(raw: Word) {
    function Idx(): nat {
      raw % IDX_RANGE
    }

    function Version(): nat {
      raw / IDX_RANGE % VERSION_RANGE
    }
  }

  const NULL: Entity := Entity(0)

  /** Packs a handle. A version above the maximum is refused; version 0 belongs to `NULL` and is lifted to 1. */
  function PackEntity(idx: nat, version: nat): (r: Result<Entity, EntityError>)
    ensures r.Failure? <==> idx > MAX_IDX || version > MAX_VERSION
    ensures r.Success? ==> r.value.Idx() == idx && r.value.Version() == Max(version, INITIAL_VERSION) && r.value != NULL
  {
    if idx > MAX_IDX then Failure(EntityAmountOverflow)
    else if version > MAX_VERSION then Failure(EntityVersionOverflow)
    else Success(Entity(idx + Max(version, INITIAL_VERSION) * IDX_RANGE))
  }

  /** A handle is determined by its two halves, so packing is injective. */
  lemma HandleByParts(e: Entity, f: Entity)
    requires e.Idx() == f.Idx() && e.Version() == f.Version()
    ensures e == f
  {
    assert e.raw == e.Idx() + e.Version() * IDX_RANGE;
    assert f.raw == f.Idx() + f.Version() * IDX_RANGE;
  }

  lemma HandlesByParts(f: Entity)
    ensures forall e: Entity :: e.Idx() == f.Idx() && e.Version() == f.Version() ==> e == f
  {
    forall e: Entity | e.Idx() == f.Idx() && e.Version() == f.Version()
      ensures e == f
    {
      HandleByParts(e, f);
    }
  }

  lemma VersionInRange(e: Entity)
    ensures e.Version() <= MAX_VERSION
  {
  }

  /**
    The masks and shifts of the packed word: on operands in range they are the sum `PackEntity`
    writes, and they give both halves back.
   */
  lemma PackedBits(idx: bv64, version: bv64)
    requires idx <= 0xFF_FFFF_FFFF && version <= 0xFF_FFFF
    ensures var packed := (idx & 0xFF_FFFF_FFFF) | ((version & 0xFF_FFFF) << 40);
            && packed == idx + version * 0x100_0000_0000
            && packed & 0xFF_FFFF_FFFF == idx
            && (packed >> 40) & 0xFF_FFFF == version
  {
  }
}
