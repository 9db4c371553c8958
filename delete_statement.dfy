/**
 * `DELETE`: its recognised options, its clause table and the fields of a
 * parsed delete statement.
 */
module DeleteStatement {
  import opened Wrappers
  import opened Delegates

  const OPTIONS: OptionTable := map[
    "LOW_PRIORITY" := OptionSpec(1, false),
    "QUICK" := OptionSpec(2, false),
    "IGNORE" := OptionSpec(3, false)
  ]

  /** One clause-table entry: its key, and the clause name and section index it maps to. */
  datatype ClauseEntry = ClauseEntry(key: string, name: string, section: int)

  /** The clause table in declaration order; "_OPTIONS" stands for the option list. */
  const CLAUSES: seq<ClauseEntry> := [
    ClauseEntry("DELETE", "DELETE", 2),
    ClauseEntry("_OPTIONS", "_OPTIONS", 1),
    ClauseEntry("FROM", "FROM", 3),
    ClauseEntry("PARTITION", "PARTITION", 3),
    ClauseEntry("WHERE", "WHERE", 3),
    ClauseEntry("ORDER BY", "ORDER BY", 3),
    ClauseEntry("LIMIT", "LIMIT", 3)
  ]

  /**
   * The section index of every clause key, as a lookup table for the clause
   * scanner; as in a PHP array literal, a later entry for the same key wins.
   */
  function SectionsOf(cs: seq<ClauseEntry>): (m: map<string, int>)
    ensures cs != [] ==> cs[|cs| - 1].key in m && m[cs[|cs| - 1].key] == cs[|cs| - 1].section
  {
    if cs == [] then map[] else SectionsOf(cs[..|cs| - 1])[cs[|cs| - 1].key := cs[|cs| - 1].section]
  }

  /** The lookup table has exactly the keys of the clause list. */
  lemma {:induction false} SectionsOfKeys(cs: seq<ClauseEntry>)
    ensures forall k :: k in SectionsOf(cs) <==> exists e :: e in cs && e.key == k
  {
    if cs != [] {
      SectionsOfKeys(cs[..|cs| - 1]);
      forall k ensures k in SectionsOf(cs) <==> exists e :: e in cs && e.key == k {
        if k in SectionsOf(cs) && k != cs[|cs| - 1].key {
          assert k in SectionsOf(cs[..|cs| - 1]);
          var e :| e in cs[..|cs| - 1] && e.key == k;
          assert e in cs;
        }
        if exists e :: e in cs && e.key == k {
          var e :| e in cs && e.key == k;
          if e != cs[|cs| - 1] {
            var i :| 0 <= i < |cs| && cs[i] == e;
            if i < |cs| - 1 {
              assert e in cs[..|cs| - 1];
            }
          }
        }
      }
    }
  }

  function Sections(): map<string, int>
  {
    SectionsOf(CLAUSES)
  }

  /** A parsed DELETE, its clause contents kept as text. */
  datatype DeleteStatement = DeleteStatement(
    options: OptionsFragment,
    from: seq<string>,
    partition: Option<string>,
    where: seq<string>,
    order: seq<string>,
    limit: Option<string>)

  /** Every entry names itself, its section lies in 1..3 and no key is repeated. */
  lemma ClausesWellFormed()
    ensures forall e :: e in CLAUSES ==> e.name == e.key && 1 <= e.section <= 3
    ensures forall i, j :: 0 <= i < j < |CLAUSES| ==> CLAUSES[i].key != CLAUSES[j].key
  {
  }

  /** The option list is section 1, the verb section 2, and every later clause one tier 3. */
  lemma SectionTiers()
    ensures Sections() == map[
      "_OPTIONS" := 1, "DELETE" := 2, "FROM" := 3, "PARTITION" := 3,
      "WHERE" := 3, "ORDER BY" := 3, "LIMIT" := 3]
  {
    var m0 := SectionsOf(CLAUSES[..0]);
    var m1 := SectionsOf(CLAUSES[..1]);
    assert CLAUSES[..1][..0] == CLAUSES[..0];
    assert m1 == m0["DELETE" := 2];
    var m2 := SectionsOf(CLAUSES[..2]);
    assert CLAUSES[..2][..1] == CLAUSES[..1];
    assert m2 == m1["_OPTIONS" := 1];
    var m3 := SectionsOf(CLAUSES[..3]);
    assert CLAUSES[..3][..2] == CLAUSES[..2];
    assert m3 == m2["FROM" := 3];
    var m4 := SectionsOf(CLAUSES[..4]);
    assert CLAUSES[..4][..3] == CLAUSES[..3];
    assert m4 == m3["PARTITION" := 3];
    var m5 := SectionsOf(CLAUSES[..5]);
    assert CLAUSES[..5][..4] == CLAUSES[..4];
    assert m5 == m4["WHERE" := 3];
    var m6 := SectionsOf(CLAUSES[..6]);
    assert CLAUSES[..6][..5] == CLAUSES[..5];
    assert m6 == m5["ORDER BY" := 3];
    assert CLAUSES[..7] == CLAUSES;
    assert CLAUSES[..6] == CLAUSES[..|CLAUSES| - 1];
    assert Sections() == m6["LIMIT" := 3];
  }

  /** Declaration order is not section order: DELETE (2) is declared before _OPTIONS (1). */
  lemma DeclarationOrderNotMonotone()
    ensures CLAUSES[0].key == "DELETE" && CLAUSES[1].key == "_OPTIONS"
    ensures CLAUSES[0].section > CLAUSES[1].section
  {
  }

  /** LOW_PRIORITY, QUICK and IGNORE occupy distinct slots 1, 2, 3 and capture nothing. */
  lemma OptionsDistinct()
    ensures OPTIONS["LOW_PRIORITY"].slot == 1 && OPTIONS["QUICK"].slot == 2 && OPTIONS["IGNORE"].slot == 3
    ensures forall k :: k in OPTIONS ==> !OPTIONS[k].captures
  {
  }
}
