/**
 * Planner types whose internals are outside this model. Each is reduced to the
 * data the modelled code reads from it.
 */
module PlanTypes {

  /** A `PartialPath`, known by its full path string (e.g. "root.sg.d.s1"). */
  type PartialPath = string

  /**
   * An `Expression`: its expression string (what `getExpressionString` and
   * `toString` give) and the paths that `collectPaths` adds to a set, in the
   * order the expression visits them (they may repeat).
   */
  datatype Expression = Expression(text: string, paths: seq<PartialPath>)

  /** `TSDataType`. */
  datatype TSDataType = BOOLEAN | INT32 | INT64 | FLOAT | DOUBLE | TEXT

  /** `AggregationStep`: the four steps of a distributed aggregation. */
  datatype AggregationStep = PARTIAL | INTERMEDIATE | FINAL | SINGLE
  {
    /** The steps whose output is a partial aggregation result. */
    predicate IsOutputPartial() { this == PARTIAL || this == INTERMEDIATE }
  }

  /** `PlanNodeId`. */
  datatype PlanNodeId = PlanNodeId(id: string)

  /** The one member of `PlanNodeType` that the modelled code writes. */
  datatype PlanNodeType = FILTER

  /** `java.time.ZoneId`, known by its id string. */
  datatype ZoneId = ZoneId(id: string)
}
