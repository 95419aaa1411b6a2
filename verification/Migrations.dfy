/** What happens to each source column when an entity moves between archetypes. */
module Migrations {
  import opened Layouts
  import opened Rows

  /** `Move`: the destination has the column too. `Abandon`: it has not, only the backfill is left to do. */
  datatype ColumnMigration = Move(src: Column, dst: Column) | Abandon(src: Column)

  type MigrationPlan = seq<ColumnMigration>

  function MigrationOf(col: Column, dst: ChunkLayout): ColumnMigration {
    match ColumnIndex(dst.columns, col.component)
    case Some(i) => Move(col, dst.columns[i])
    case None => Abandon(col)
  }

  function PlanOf(src: ChunkLayout, dst: ChunkLayout): (plan: MigrationPlan)
    ensures |plan| == |src.columns|
    ensures forall i :: 0 <= i < |plan| ==> plan[i] == MigrationOf(src.columns[i], dst)
  {
    seq(|src.columns|, i requires 0 <= i < |src.columns| => MigrationOf(src.columns[i], dst))
  }

  method NewPlan(src: ChunkLayout, dst: ChunkLayout) returns (plan: MigrationPlan)
    ensures plan == PlanOf(src, dst)
  {
    plan := [];
    for i := 0 to |src.columns|
      invariant |plan| == i && forall j :: 0 <= j < i ==> plan[j] == MigrationOf(src.columns[j], dst)
    {
      match ColumnIndex(dst.columns, src.columns[i].component)
      case Some(d) => plan := plan + [Move(src.columns[i], dst.columns[d])];
      case None => plan := plan + [Abandon(src.columns[i])];
    }
  }

  /** A plan towards a superset moves every column; in general it abandons exactly what the destination lacks. */
  lemma PlanMovesAndAbandons(src: ChunkLayout, dst: ChunkLayout)
    ensures forall i :: 0 <= i < |src.columns| ==>
      (PlanOf(src, dst)[i].Abandon? <==> src.columns[i].component in ComponentsOf(src) - ComponentsOf(dst))
    ensures (forall i :: 0 <= i < |src.columns| ==> PlanOf(src, dst)[i].Move?) <==> ComponentsOf(src) <= ComponentsOf(dst)
  {
    forall i | 0 <= i < |src.columns|
      ensures src.columns[i].component in ComponentsOf(src)
      ensures PlanOf(src, dst)[i].Abandon? <==> src.columns[i].component !in ComponentsOf(dst)
    {
    }
    if forall i :: 0 <= i < |src.columns| ==> PlanOf(src, dst)[i].Move? {
      forall c | c in ComponentsOf(src)
        ensures c in ComponentsOf(dst)
      {
        var i := ColumnFor(src, c);
        assert PlanOf(src, dst)[i].Move?;
      }
    }
  }
}
