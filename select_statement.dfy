/**
 * `SELECT`: its recognised options and the fields of a parsed select statement.
 */
module SelectStatement {
  import opened Wrappers
  import opened Delegates

  /** The option slots of SELECT; keywords that exclude one another share a slot. */
  const OPTIONS: OptionTable := map[
    "ALL" := OptionSpec(1, false),
    "DISTINCT" := OptionSpec(1, false),
    "DISTINCTROW" := OptionSpec(1, false),
    "HIGH_PRIORITY" := OptionSpec(2, false),
    "MAX_STATEMENT_TIME" := OptionSpec(3, true),
    "STRAIGHT_JOIN" := OptionSpec(4, false),
    "SQL_SMALL_RESULT" := OptionSpec(5, false),
    "SQL_BIG_RESULT" := OptionSpec(6, false),
    "SQL_BUFFER_RESULT" := OptionSpec(7, false),
    "SQL_CACHE" := OptionSpec(8, false),
    "SQL_NO_CACHE" := OptionSpec(8, false),
    "SQL_CALC_FOUND_ROWS" := OptionSpec(9, false)
  ]

  /** One selected expression: the function it calls (`func`) and the subquery it holds ("" for none). */
  datatype SelectExpression = SelectExpression(func: string, subquery: string)

  /**
   * A parsed SELECT. The clause contents are kept as their text; getFlags only
   * asks whether each is empty. `into`, `procedure` and `union` are read by
   * getFlags but not declared by the statement class; an absent one is None/[].
   */
  datatype SelectStatement = SelectStatement(
    options: OptionsFragment,
    expr: seq<SelectExpression>,
    from: seq<string>,
    partition: Option<string>,
    where: seq<string>,
    group: seq<string>,
    having: seq<string>,
    order: seq<string>,
    limit: Option<string>,
    join: seq<string>,
    into: Option<string>,
    procedure: Option<string>,
    union: seq<string>)

  /** ALL, DISTINCT and DISTINCTROW exclude one another: they share slot 1. */
  lemma DistinctKeywordsShareSlot()
    ensures OPTIONS["ALL"].slot == OPTIONS["DISTINCT"].slot == OPTIONS["DISTINCTROW"].slot == 1
    ensures OPTIONS["SQL_CACHE"].slot == OPTIONS["SQL_NO_CACHE"].slot == 8
  {
  }

  /** MAX_STATEMENT_TIME is the only option that captures a value. */
  lemma OnlyMaxStatementTimeCaptures()
    ensures OPTIONS["MAX_STATEMENT_TIME"] == OptionSpec(3, true)
    ensures forall k :: k in OPTIONS && OPTIONS[k].captures ==> k == "MAX_STATEMENT_TIME"
  {
  }

  /** Every slot id lies in 1..9 and the keywords of one slot agree on value capture. */
  lemma SlotsWellFormed()
    ensures forall k :: k in OPTIONS ==> 1 <= OPTIONS[k].slot <= 9
    ensures forall k, l :: k in OPTIONS && l in OPTIONS && OPTIONS[k].slot == OPTIONS[l].slot ==>
      OPTIONS[k].captures == OPTIONS[l].captures
  {
  }
}
