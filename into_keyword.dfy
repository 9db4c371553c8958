/**
 * The target of `INTO`: a table name, optionally followed by a parenthesised
 * column list (`INTO tbl (a, b)`).
 */
module IntoKeyword {
  import opened Php
  import opened Tokens

  const TABLE_NAME_EXPECTED := "Table name was expected."
  const FIELD_NAME_EXPECTED := "Field name was expected."

  /** The parsed target; an absent table name or field list reads as "" or []. */
  datatype IntoKeyword = IntoKeyword(table: string, fields: seq<string>)

  /** A run of the grammar: the target, where the cursor is left, and all diagnostics so far. */
  datatype Outcome = Outcome(into: IntoKeyword, last: int, errors: seq<Diagnostic>)

  /** `(` and `,`, the only operators the grammar accepts. */
  predicate IsSeparator(t: Token)
  {
    IsOperator(t, "(") || IsOperator(t, ",")
  }

  /** The tokens that end the loop: a delimiter, a reserved keyword, any other operator. */
  predicate Stops(t: Token)
  {
    t.kind == Delimiter || (t.kind == Keyword && t.reserved) || (t.kind == Operator && !IsSeparator(t))
  }

  /** The parser's loop from cursor `idx` in `state` with the table and fields gathered so far. */
  function Loop(ts: seq<Token>, idx: int, state: int, table: string, fields: seq<string>,
                errors: seq<Diagnostic>): (r: Outcome)
    requires 0 <= idx <= |ts|
    ensures idx - 1 <= r.last < |ts|
    decreases |ts| - idx
  {
    if idx == |ts| then Outcome(IntoKeyword(table, fields), idx - 1, errors)
    else
      var t := ts[idx];
      if t.kind == Delimiter then Outcome(IntoKeyword(table, fields), idx - 1, errors)
      else if IsTrivia(t) then Loop(ts, idx + 1, state, table, fields, errors)
      else if t.kind == Keyword && t.reserved then Outcome(IntoKeyword(table, fields), idx - 1, errors)
      else if t.kind == Operator then
        if t.value == "(" then
          Loop(ts, idx + 1, 1, table, fields,
               if PhpEmpty(table) then errors + [Diagnostic(TABLE_NAME_EXPECTED, t)] else errors)
        else if t.value == "," then
          Loop(ts, idx + 1, 1, table, fields,
               if state != 2 then errors + [Diagnostic(FIELD_NAME_EXPECTED, t)] else errors)
        else Outcome(IntoKeyword(table, fields), idx - 1, errors)
      else if state == 0 then Loop(ts, idx + 1, 0, table + t.value, fields, errors)
      else if state == 1 then Loop(ts, idx + 1, 2, table, fields + [t.value], errors)
      else Loop(ts, idx + 1, state, table, fields, errors)
  }

  /** The whole grammar, started at cursor `i` in state 0 with nothing gathered. */
  function Grammar(ts: seq<Token>, i: int, errors: seq<Diagnostic>): Outcome
    requires 0 <= i <= |ts|
  {
    Loop(ts, i, 0, "", [], errors)
  }

  /** The index where the loop stops: the first stopping token at or after `i`, or the end. */
  function FirstStop(ts: seq<Token>, i: int): (s: int)
    requires 0 <= i <= |ts|
    ensures i <= s <= |ts|
    ensures forall k :: i <= k < s ==> !Stops(ts[k])
    ensures s < |ts| ==> Stops(ts[s])
    decreases |ts| - i
  {
    if i == |ts| || Stops(ts[i]) then i else FirstStop(ts, i + 1)
  }

  /** The values of the significant tokens before the first separator, concatenated. */
  function TableText(ts: seq<Token>, i: int): string
    requires 0 <= i <= |ts|
    decreases |ts| - i
  {
    if i == |ts| || Stops(ts[i]) || IsSeparator(ts[i]) then ""
    else (if IsTrivia(ts[i]) then "" else ts[i].value) + TableText(ts, i + 1)
  }

  /** Some separator occurs in [lo, k). */
  predicate SeparatorIn(ts: seq<Token>, lo: int, k: int)
    requires 0 <= lo <= k <= |ts|
  {
    exists s :: lo <= s < k && IsSeparator(ts[s])
  }

  /** The last significant token of [lo, k) is a separator. */
  predicate AfterSeparator(ts: seq<Token>, lo: int, k: int)
    requires 0 <= lo <= k <= |ts|
    decreases k - lo
  {
    k > lo && (IsSeparator(ts[k - 1]) || (IsTrivia(ts[k - 1]) && AfterSeparator(ts, lo, k - 1)))
  }

  /** A token that names a field: significant, not an operator, right after a separator. */
  predicate IsFieldAt(ts: seq<Token>, lo: int, k: int)
    requires 0 <= lo <= k < |ts|
  {
    !IsTrivia(ts[k]) && ts[k].kind != Operator && AfterSeparator(ts, lo, k)
  }

  /** The values of the field-naming tokens in [k, stop). */
  function FieldValues(ts: seq<Token>, lo: int, k: int, stop: int): seq<string>
    requires 0 <= lo <= k <= stop <= |ts|
    decreases stop - k
  {
    if k == stop then []
    else (if IsFieldAt(ts, lo, k) then [ts[k].value] else []) + FieldValues(ts, lo, k + 1, stop)
  }

  /** The loop stops exactly at FirstStop, leaving the cursor one before it. */
  lemma {:induction false} LoopStopsAtFirstStop(ts: seq<Token>, idx: int, state: int, table: string,
                                                fields: seq<string>, errors: seq<Diagnostic>)
    requires 0 <= idx <= |ts|
    ensures Loop(ts, idx, state, table, fields, errors).last == FirstStop(ts, idx) - 1
    decreases |ts| - idx
  {
    if idx < |ts| && !Stops(ts[idx]) {
      var t := ts[idx];
      if IsTrivia(t) {
        LoopStopsAtFirstStop(ts, idx + 1, state, table, fields, errors);
      } else if t.kind == Operator {
        var e1 := if PhpEmpty(table) then errors + [Diagnostic(TABLE_NAME_EXPECTED, t)] else errors;
        var e2 := if state != 2 then errors + [Diagnostic(FIELD_NAME_EXPECTED, t)] else errors;
        LoopStopsAtFirstStop(ts, idx + 1, 1, table, fields, if t.value == "(" then e1 else e2);
      } else if state == 0 {
        LoopStopsAtFirstStop(ts, idx + 1, 0, table + t.value, fields, errors);
      } else if state == 1 {
        LoopStopsAtFirstStop(ts, idx + 1, 2, table, fields + [t.value], errors);
      } else {
        LoopStopsAtFirstStop(ts, idx + 1, state, table, fields, errors);
      }
    }
  }

  /** Once a separator has been seen (state 1 or 2) the table name never changes. */
  lemma {:induction false} TableFrozenAfterSeparator(ts: seq<Token>, idx: int, state: int, table: string,
                                                     fields: seq<string>, errors: seq<Diagnostic>)
    requires 0 <= idx <= |ts|
    requires state != 0
    ensures Loop(ts, idx, state, table, fields, errors).into.table == table
    decreases |ts| - idx
  {
    if idx < |ts| && !Stops(ts[idx]) {
      var t := ts[idx];
      if IsTrivia(t) {
        TableFrozenAfterSeparator(ts, idx + 1, state, table, fields, errors);
      } else if t.kind == Operator {
        var e1 := if PhpEmpty(table) then errors + [Diagnostic(TABLE_NAME_EXPECTED, t)] else errors;
        var e2 := if state != 2 then errors + [Diagnostic(FIELD_NAME_EXPECTED, t)] else errors;
        TableFrozenAfterSeparator(ts, idx + 1, 1, table, fields, if t.value == "(" then e1 else e2);
      } else if state == 1 {
        TableFrozenAfterSeparator(ts, idx + 1, 2, table, fields + [t.value], errors);
      } else {
        TableFrozenAfterSeparator(ts, idx + 1, state, table, fields, errors);
      }
    }
  }

  /** The table name is the concatenated values of the significant tokens before the first `(` or `,`. */
  lemma {:induction false} TableIsLeadingText(ts: seq<Token>, idx: int, table: string, fields: seq<string>,
                                              errors: seq<Diagnostic>)
    requires 0 <= idx <= |ts|
    ensures Loop(ts, idx, 0, table, fields, errors).into.table == table + TableText(ts, idx)
    decreases |ts| - idx
  {
    if idx < |ts| && !Stops(ts[idx]) {
      var t := ts[idx];
      if IsTrivia(t) {
        TableIsLeadingText(ts, idx + 1, table, fields, errors);
      } else if t.kind == Operator {
        var e1 := if PhpEmpty(table) then errors + [Diagnostic(TABLE_NAME_EXPECTED, t)] else errors;
        var e2 := errors + [Diagnostic(FIELD_NAME_EXPECTED, t)];
        TableFrozenAfterSeparator(ts, idx + 1, 1, table, fields, if t.value == "(" then e1 else e2);
      } else {
        TableIsLeadingText(ts, idx + 1, table + t.value, fields, errors);
        assert table + t.value + TableText(ts, idx + 1) == table + (t.value + TableText(ts, idx + 1));
      }
    }
  }

  /**
   * The loop's state, read off the tokens already passed: 0 before any
   * separator, 1 right after one, 2 once a significant token followed it.
   */
  predicate StateMatches(ts: seq<Token>, lo: int, idx: int, state: int)
    requires 0 <= lo <= idx <= |ts|
  {
    (state == 0 <==> !SeparatorIn(ts, lo, idx)) &&
    (state == 1 <==> AfterSeparator(ts, lo, idx)) &&
    0 <= state <= 2
  }

  lemma AfterSeparatorImpliesSeparatorIn(ts: seq<Token>, lo: int, k: int)
    requires 0 <= lo <= k <= |ts|
    requires AfterSeparator(ts, lo, k)
    ensures SeparatorIn(ts, lo, k)
    decreases k - lo
  {
    if !IsSeparator(ts[k - 1]) {
      AfterSeparatorImpliesSeparatorIn(ts, lo, k - 1);
    }
  }

  /** Passing one more token extends "a separator occurs" by that token. */
  lemma SeparatorInStep(ts: seq<Token>, lo: int, idx: int)
    requires 0 <= lo <= idx < |ts|
    ensures SeparatorIn(ts, lo, idx + 1) <==> SeparatorIn(ts, lo, idx) || IsSeparator(ts[idx])
  {
    if SeparatorIn(ts, lo, idx + 1) && !IsSeparator(ts[idx]) {
      var s :| lo <= s < idx + 1 && IsSeparator(ts[s]);
      assert s < idx;
    }
    if SeparatorIn(ts, lo, idx) {
      var s :| lo <= s < idx && IsSeparator(ts[s]);
      assert lo <= s < idx + 1;
    }
    if IsSeparator(ts[idx]) {
      assert lo <= idx < idx + 1;
    }
  }

  /** The state the loop moves to after one token agrees with StateMatches one token further. */
  lemma StateMatchesStep(ts: seq<Token>, lo: int, idx: int, state: int)
    requires 0 <= lo <= idx < |ts|
    requires StateMatches(ts, lo, idx, state)
    requires !Stops(ts[idx])
    ensures IsTrivia(ts[idx]) ==> StateMatches(ts, lo, idx + 1, state)
    ensures ts[idx].kind == Operator ==> StateMatches(ts, lo, idx + 1, 1)
    ensures !IsTrivia(ts[idx]) && ts[idx].kind != Operator ==>
              StateMatches(ts, lo, idx + 1, if state == 1 then 2 else state)
    ensures IsFieldAt(ts, lo, idx) <==> !IsTrivia(ts[idx]) && ts[idx].kind != Operator && state == 1
  {
    SeparatorInStep(ts, lo, idx);
    if state == 1 {
      AfterSeparatorImpliesSeparatorIn(ts, lo, idx);
    }
  }

  /**
   * The fields are the values of the significant non-operator tokens that
   * directly follow a `(` or `,`, in order; any further token before the next
   * separator is ignored.
   */
  lemma {:induction false} FieldsFollowSeparators(ts: seq<Token>, lo: int, idx: int, state: int, table: string,
                                                  fields: seq<string>, errors: seq<Diagnostic>)
    requires 0 <= lo <= |ts|
    requires lo <= idx <= FirstStop(ts, lo)
    requires StateMatches(ts, lo, idx, state)
    ensures Loop(ts, idx, state, table, fields, errors).into.fields
         == fields + FieldValues(ts, lo, idx, FirstStop(ts, lo))
    decreases |ts| - idx
  {
    var stop := FirstStop(ts, lo);
    if idx == stop {
      assert FieldValues(ts, lo, idx, stop) == [];
      assert Loop(ts, idx, state, table, fields, errors).into.fields == fields;
    } else {
      var t := ts[idx];
      assert !Stops(t);
      StateMatchesStep(ts, lo, idx, state);
      var rest := FieldValues(ts, lo, idx + 1, stop);
      if IsFieldAt(ts, lo, idx) {
        assert FieldValues(ts, lo, idx, stop) == [t.value] + rest;
      } else {
        assert FieldValues(ts, lo, idx, stop) == [] + rest == rest;
      }
      if IsTrivia(t) {
        assert Loop(ts, idx, state, table, fields, errors) == Loop(ts, idx + 1, state, table, fields, errors);
        FieldsFollowSeparators(ts, lo, idx + 1, state, table, fields, errors);
      } else if t.kind == Operator {
        var e1 := if PhpEmpty(table) then errors + [Diagnostic(TABLE_NAME_EXPECTED, t)] else errors;
        var e2 := if state != 2 then errors + [Diagnostic(FIELD_NAME_EXPECTED, t)] else errors;
        var e := if t.value == "(" then e1 else e2;
        assert Loop(ts, idx, state, table, fields, errors) == Loop(ts, idx + 1, 1, table, fields, e);
        FieldsFollowSeparators(ts, lo, idx + 1, 1, table, fields, e);
      } else if state == 0 {
        assert Loop(ts, idx, state, table, fields, errors) == Loop(ts, idx + 1, 0, table + t.value, fields, errors);
        FieldsFollowSeparators(ts, lo, idx + 1, 0, table + t.value, fields, errors);
      } else if state == 1 {
        assert Loop(ts, idx, state, table, fields, errors) == Loop(ts, idx + 1, 2, table, fields + [t.value], errors);
        FieldsFollowSeparators(ts, lo, idx + 1, 2, table, fields + [t.value], errors);
        assert fields + [t.value] + rest == fields + ([t.value] + rest);
      } else {
        assert Loop(ts, idx, state, table, fields, errors) == Loop(ts, idx + 1, state, table, fields, errors);
        FieldsFollowSeparators(ts, lo, idx + 1, state, table, fields, errors);
      }
    }
  }

  /** The whole grammar: the cursor ends one before the stop, the table and fields as characterised above. */
  lemma GrammarShape(ts: seq<Token>, i: int, errors: seq<Diagnostic>)
    requires 0 <= i <= |ts|
    ensures var r := Grammar(ts, i, errors);
            r.last == FirstStop(ts, i) - 1 &&
            r.into.table == TableText(ts, i) &&
            r.into.fields == FieldValues(ts, i, i, FirstStop(ts, i))
  {
    LoopStopsAtFirstStop(ts, i, 0, "", [], errors);
    TableIsLeadingText(ts, i, "", [], errors);
    FieldsFollowSeparators(ts, i, i, 0, "", [], errors);
  }

  /**
   * The two diagnostics: `(` complains exactly when no table name has been
   * gathered, `,` exactly when no field name came since the last separator;
   * both move to state 1.
   */
  lemma SeparatorDiagnostics(ts: seq<Token>, idx: int, state: int, table: string, fields: seq<string>,
                             errors: seq<Diagnostic>)
    requires 0 <= idx < |ts|
    ensures IsOperator(ts[idx], "(") ==>
              Loop(ts, idx, state, table, fields, errors)
              == Loop(ts, idx + 1, 1, table, fields,
                      errors + (if PhpEmpty(table) then [Diagnostic(TABLE_NAME_EXPECTED, ts[idx])] else []))
    ensures IsOperator(ts[idx], ",") ==>
              Loop(ts, idx, state, table, fields, errors)
              == Loop(ts, idx + 1, 1, table, fields,
                      errors + (if state != 2 then [Diagnostic(FIELD_NAME_EXPECTED, ts[idx])] else []))
  {
    assert errors + [] == errors;
  }

  /** IntoKeyword::parse. */
  method Parse(parser: Parser, list: TokensList) returns (ret: IntoKeyword)
    requires list.Valid() && 0 <= list.idx <= list.count
    modifies list`idx, parser`errors
    ensures var r := Grammar(list.tokens, old(list.idx), old(parser.errors));
            ret == r.into && list.idx == r.last && parser.errors == r.errors
  {
    ghost var target := Grammar(list.tokens, list.idx, parser.errors);
    var table := "";
    var fields: seq<string> := [];
    var state := 0;
    while list.idx < list.count
      invariant 0 <= list.idx <= list.count
      invariant Loop(list.tokens, list.idx, state, table, fields, parser.errors) == target
      decreases list.count - list.idx
    {
      var token := list.tokens[list.idx];
      if token.kind == Delimiter {
        break;
      }
      if token.kind == Whitespace || token.kind == Comment {
        list.idx := list.idx + 1;
        continue;
      }
      if token.kind == Keyword && token.reserved {
        break;
      }
      if token.kind == Operator {
        if token.value == "(" {
          if PhpEmpty(table) {
            parser.Error(TABLE_NAME_EXPECTED, token);
          }
          state := 1;
          list.idx := list.idx + 1;
          continue;
        } else if token.value == "," {
          if state != 2 {
            parser.Error(FIELD_NAME_EXPECTED, token);
          }
          state := 1;
          list.idx := list.idx + 1;
          continue;
        }
        break;
      }
      if state == 0 {
        table := table + token.value;
      } else if state == 1 {
        fields := fields + [token.value];
        state := 2;
      }
      list.idx := list.idx + 1;
    }
    list.idx := list.idx - 1;
    ret := IntoKeyword(table, fields);
  }
}
