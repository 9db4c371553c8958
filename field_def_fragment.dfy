/**
 * The column and key definitions inside `CREATE TABLE (...)`: a state machine
 * over the shared cursor that hands the cursor to the data-type, options and
 * list grammars in turn.
 */
module FieldDefFragment {
  import opened Wrappers
  import opened Tokens
  import opened Delegates
  import DataTypeFragment

  /** The options a column definition accepts. */
  const FIELD_OPTIONS: OptionTable := map[
    "NOT NULL" := OptionSpec(1, false),
    "NULL" := OptionSpec(1, false),
    "DEFAULT" := OptionSpec(2, true),
    "AUTO_INCREMENT" := OptionSpec(3, false),
    "PRIMARY" := OptionSpec(4, false),
    "PRIMARY KEY" := OptionSpec(4, false),
    "UNIQUE" := OptionSpec(4, false),
    "UNIQUE KEY" := OptionSpec(4, false),
    "COMMENT" := OptionSpec(5, true),
    "COLUMN_FORMAT" := OptionSpec(6, true)
  ]

  const UNEXPECTED_KEYWORD := "Unexpected keyword."

  /** What `type` holds: a key-type keyword (for a key) or the parsed data type (for a column). */
  datatype FieldType = KeyType(keyword: string) | ColumnType(dataType: DataTypeFragment.DataTypeFragment)

  /** One entry of the definition list, with the significant tokens it was built from. */
  datatype FieldDefFragment = FieldDefFragment(
    name: string,
    fieldType: Option<FieldType>,
    indexes: Option<ArrayFragment>,
    options: Option<OptionsFragment>,
    tokens: seq<Token>)

  const EMPTY := FieldDefFragment("", None, None, None, [])

  /** A run of the grammar: the entries, where the cursor is left, and all diagnostics so far. */
  datatype Outcome = Outcome(fields: seq<FieldDefFragment>, last: int, errors: seq<Diagnostic>)

  function Record(expr: FieldDefFragment, t: Token): FieldDefFragment
  {
    expr.(tokens := expr.tokens + [t])
  }

  function ColumnTypeOf(d: Option<DataTypeFragment.DataTypeFragment>): Option<FieldType>
  {
    if d.Some? then Some(ColumnType(d.value)) else None
  }

  /** After the loop: the unfinished entry is kept only if it recorded a token; the cursor steps back. */
  function Finish(idx: int, expr: FieldDefFragment, ret: seq<FieldDefFragment>, errors: seq<Diagnostic>): (r: Outcome)
    ensures r.last == idx - 1 && r.errors == errors
    ensures r.fields == if expr.tokens != [] then ret + [expr] else ret
  {
    Outcome(if expr.tokens != [] then ret + [expr] else ret, idx - 1, errors)
  }

  /** The delegating states may hand back the cursor unmoved, so they rank above the state they move to. */
  function Rank(state: int): nat
  {
    if state == 2 then 2 else if state == 3 || state == 5 then 1 else 0
  }

  /** The cursor a data-type delegation leaves lies between one before its start and one past the end. */
  lemma DataTypeCursorBounds(ts: seq<Token>, i: int, errors: seq<Diagnostic>, arr: ArrayParser, opts: OptionsParser)
    requires 0 <= i <= |ts|
    requires ArrayContract(arr) && OptionsContract(opts)
    ensures i - 1 <= DataTypeFragment.Grammar(ts, i, errors, arr, opts).last <= |ts|
    ensures errors <= DataTypeFragment.Grammar(ts, i, errors, arr, opts).errors
  {
    DataTypeFragment.LoopIsGrammar(ts, i, errors, arr, opts);
    DataTypeFragment.CursorOnExit(ts, i, errors, arr, opts);
  }

  /** Where one iteration of the parser's loop leaves it: on to the next configuration, or finished. */
  datatype Next =
    | Continue(idx: int, state: int, expr: FieldDefFragment, ret: seq<FieldDefFragment>, errors: seq<Diagnostic>)
    | Stop(out: Outcome)

  /**
   * One iteration of the parser's loop on the token under the cursor `idx`:
   * a delimiter ends the loop, whitespace and comments are passed over, and
   * every other token is handled by the state it arrives in. Every state but
   * 0 records the token in the entry in progress; the delegating states (2, 3
   * and 5) move the cursor to one past the token their grammar consumed last.
   */
  function Step(ts: seq<Token>, idx: int, state: int, expr: FieldDefFragment, ret: seq<FieldDefFragment>,
                errors: seq<Diagnostic>, keyTypes: set<string>, arr: ArrayParser, opts: OptionsParser): (n: Next)
    requires 0 <= idx < |ts|
    requires ArrayContract(arr) && OptionsContract(opts)
    ensures n.Continue? ==> idx <= n.idx <= |ts| + 1 && (idx < n.idx || Rank(n.state) < Rank(state))
    ensures n.Continue? ==> ret <= n.ret && errors <= n.errors
    ensures n.Stop? ==> idx - 1 <= n.out.last <= |ts| && ret <= n.out.fields && errors <= n.out.errors
  {
    var t := ts[idx];
    if t.kind == Delimiter then Stop(Finish(idx, expr, ret, errors))
    else if IsTrivia(t) then Continue(idx + 1, state, expr, ret, errors)
    else if state == 0 then Continue(idx + 1, if IsOperator(t, "(") then 1 else 0, expr, ret, errors)
    else if state == 1 then
      if t.kind == Keyword then
        if t.value == "CONSTRAINT" then Continue(idx + 1, 4, Record(expr, t), ret, errors)
        else if t.value in keyTypes then
          Continue(idx + 1, 5, Record(expr.(fieldType := Some(KeyType(t.value))), t), ret, errors)
        else Stop(Finish(idx, expr, ret, errors + [Diagnostic(UNEXPECTED_KEYWORD, t)]))
      else Continue(idx + 1, 2, Record(expr.(name := t.value), t), ret, errors)
    else if state == 2 then
      var d := DataTypeFragment.Grammar(ts, idx, errors, arr, opts);
      DataTypeCursorBounds(ts, idx, errors, arr, opts);
      Continue(d.last + 1, 3, Record(expr.(fieldType := ColumnTypeOf(d.node)), t), ret, d.errors)
    else if state == 3 then
      var o := opts(ts, idx, FIELD_OPTIONS);
      Continue(o.last + 1, 6, Record(expr.(options := Some(o.result)), t), ret, errors)
    else if state == 4 then
      if t.value !in keyTypes then Continue(idx + 1, 4, Record(expr.(name := t.value), t), ret, errors)
      else Continue(idx + 1, 5, Record(expr.(fieldType := Some(KeyType(t.value))), t), ret, errors)
    else if state == 5 then
      var a := arr(ts, idx);
      Continue(a.last + 1, 6, Record(expr.(indexes := Some(a.result)), t), ret, errors)
    else if state == 6 then
      if t.value == "," then Continue(idx + 1, 1, EMPTY, ret + [expr], errors)
      else if t.value == ")" then Stop(Finish(idx + 1, EMPTY, ret + [expr], errors))
      else Continue(idx + 1, 6, Record(EMPTY, t), ret + [expr], errors)
    else Continue(idx + 1, state, Record(expr, t), ret, errors)
  }

  /**
   * The parser's loop from cursor `idx` in `state`, with the entry in progress
   * and the entries finished so far. The cursor may reach one past the end
   * when a data type returns null at the end of the input.
   */
  function Loop(ts: seq<Token>, idx: int, state: int, expr: FieldDefFragment, ret: seq<FieldDefFragment>,
                errors: seq<Diagnostic>, keyTypes: set<string>, arr: ArrayParser, opts: OptionsParser): (r: Outcome)
    requires 0 <= idx <= |ts| + 1
    requires ArrayContract(arr) && OptionsContract(opts)
    ensures idx - 1 <= r.last <= |ts|
    ensures ret <= r.fields
    ensures errors <= r.errors
    decreases |ts| - idx, Rank(state)
  {
    if idx >= |ts| then Finish(idx, expr, ret, errors)
    else
      match Step(ts, idx, state, expr, ret, errors, keyTypes, arr, opts)
      case Stop(out) => out
      case Continue(i, s, e, r, errs) => Loop(ts, i, s, e, r, errs, keyTypes, arr, opts)
  }

  /** The whole grammar, started at cursor `i` in state 0. */
  function Grammar(ts: seq<Token>, i: int, errors: seq<Diagnostic>, keyTypes: set<string>,
                   arr: ArrayParser, opts: OptionsParser): Outcome
    requires 0 <= i <= |ts|
    requires ArrayContract(arr) && OptionsContract(opts)
  {
    Loop(ts, i, 0, EMPTY, [], errors, keyTypes, arr, opts)
  }

  /**
   * Before the opening parenthesis nothing is recorded and no state changes:
   * every significant token up to the first `(` is passed over, and the `(`
   * itself moves to state 1.
   */
  lemma {:induction false} StateZeroSkipsToOpen(ts: seq<Token>, i: int, j: int, expr: FieldDefFragment,
                                                ret: seq<FieldDefFragment>, errors: seq<Diagnostic>,
                                                keyTypes: set<string>, arr: ArrayParser, opts: OptionsParser)
    requires 0 <= i <= j < |ts|
    requires ArrayContract(arr) && OptionsContract(opts)
    requires forall k :: i <= k < j ==> ts[k].kind != Delimiter && !IsOperator(ts[k], "(")
    requires IsOperator(ts[j], "(")
    ensures Loop(ts, i, 0, expr, ret, errors, keyTypes, arr, opts)
         == Loop(ts, j + 1, 1, expr, ret, errors, keyTypes, arr, opts)
    decreases j - i
  {
    assert Step(ts, i, 0, expr, ret, errors, keyTypes, arr, opts)
        == Continue(i + 1, if i < j then 0 else 1, expr, ret, errors);
    if i < j {
      StateZeroSkipsToOpen(ts, i + 1, j, expr, ret, errors, keyTypes, arr, opts);
    }
  }

  /** Without a `(` before the end or a delimiter, the grammar records nothing at all. */
  lemma {:induction false} NoOpenNoFields(ts: seq<Token>, i: int, errors: seq<Diagnostic>,
                                          keyTypes: set<string>, arr: ArrayParser, opts: OptionsParser)
    requires 0 <= i <= |ts|
    requires ArrayContract(arr) && OptionsContract(opts)
    requires forall k :: i <= k < |ts| ==> !IsOperator(ts[k], "(")
    ensures Grammar(ts, i, errors, keyTypes, arr, opts).fields == []
    ensures Grammar(ts, i, errors, keyTypes, arr, opts).errors == errors
    decreases |ts| - i
  {
    if i < |ts| && ts[i].kind != Delimiter {
      NoOpenNoFields(ts, i + 1, errors, keyTypes, arr, opts);
    }
  }

  /**
   * The end of the input or a delimiter ends the loop in any state: the entry
   * in progress is kept if it recorded a token, and the cursor is left just
   * before the delimiter.
   */
  lemma LoopStopsAtDelimiter(ts: seq<Token>, idx: int, state: int, expr: FieldDefFragment,
                             ret: seq<FieldDefFragment>, errors: seq<Diagnostic>,
                             keyTypes: set<string>, arr: ArrayParser, opts: OptionsParser)
    requires 0 <= idx <= |ts| + 1
    requires ArrayContract(arr) && OptionsContract(opts)
    requires idx >= |ts| || ts[idx].kind == Delimiter
    ensures var r := Loop(ts, idx, state, expr, ret, errors, keyTypes, arr, opts);
            r.last == idx - 1 && r.errors == errors &&
            r.fields == if expr.tokens != [] then ret + [expr] else ret
  {
  }

  /** Whitespace and comments neither change the state nor record anything. */
  lemma {:induction false} LoopSkipsTrivia(ts: seq<Token>, idx: int, state: int, expr: FieldDefFragment,
                                           ret: seq<FieldDefFragment>, errors: seq<Diagnostic>,
                                           keyTypes: set<string>, arr: ArrayParser, opts: OptionsParser)
    requires 0 <= idx <= |ts|
    requires ArrayContract(arr) && OptionsContract(opts)
    ensures Loop(ts, idx, state, expr, ret, errors, keyTypes, arr, opts)
         == Loop(ts, NextSignificant(ts, idx), state, expr, ret, errors, keyTypes, arr, opts)
    decreases |ts| - idx
  {
    if idx < |ts| && IsTrivia(ts[idx]) {
      assert Step(ts, idx, state, expr, ret, errors, keyTypes, arr, opts) == Continue(idx + 1, state, expr, ret, errors);
      LoopSkipsTrivia(ts, idx + 1, state, expr, ret, errors, keyTypes, arr, opts);
    }
  }

  /** Tokens an entry may record: never whitespace, a comment or a delimiter. */
  predicate Significant(t: Token)
  {
    !IsTrivia(t) && t.kind != Delimiter
  }

  predicate AllSignificant(e: FieldDefFragment)
  {
    forall k :: 0 <= k < |e.tokens| ==> Significant(e.tokens[k])
  }

  predicate EntriesSignificant(fields: seq<FieldDefFragment>)
  {
    forall e :: e in fields ==> AllSignificant(e)
  }

  /** Recording a significant token keeps an entry's tokens significant, whatever its fields become. */
  lemma RecordKeepsSignificant(expr: FieldDefFragment, t: Token)
    requires AllSignificant(expr) && Significant(t)
    ensures forall e: FieldDefFragment :: e.tokens == expr.tokens ==> AllSignificant(Record(e, t))
  {
  }

  lemma AppendKeepsSignificant(ret: seq<FieldDefFragment>, expr: FieldDefFragment)
    requires AllSignificant(expr) && EntriesSignificant(ret)
    ensures EntriesSignificant(ret + [expr])
  {
  }

  /** Whitespace, comments and delimiters never end up in an entry's tokens. */
  lemma {:induction false} EntriesRecordOnlySignificantTokens(
    ts: seq<Token>, idx: int, state: int, expr: FieldDefFragment, ret: seq<FieldDefFragment>,
    errors: seq<Diagnostic>, keyTypes: set<string>, arr: ArrayParser, opts: OptionsParser)
    requires 0 <= idx <= |ts| + 1
    requires ArrayContract(arr) && OptionsContract(opts)
    requires AllSignificant(expr) && EntriesSignificant(ret)
    ensures EntriesSignificant(Loop(ts, idx, state, expr, ret, errors, keyTypes, arr, opts).fields)
    decreases |ts| - idx, Rank(state), 1
  {
    if idx >= |ts| || ts[idx].kind == Delimiter {
      AppendKeepsSignificant(ret, expr);
      return;
    }
    var t := ts[idx];
    if IsTrivia(t) {
      EntriesRecordOnlySignificantTokens(ts, idx + 1, state, expr, ret, errors, keyTypes, arr, opts);
      return;
    }
    RecordKeepsSignificant(expr, t);
    if state == 0 {
      EntriesRecordOnlySignificantTokens(ts, idx + 1, if IsOperator(t, "(") then 1 else 0, expr, ret, errors, keyTypes, arr, opts);
    } else if state == 1 {
      if t.kind != Keyword {
        EntriesRecordOnlySignificantTokens(ts, idx + 1, 2, Record(expr.(name := t.value), t), ret, errors, keyTypes, arr, opts);
      } else if t.value == "CONSTRAINT" {
        EntriesRecordOnlySignificantTokens(ts, idx + 1, 4, Record(expr, t), ret, errors, keyTypes, arr, opts);
      } else if t.value in keyTypes {
        EntriesRecordOnlySignificantTokens(ts, idx + 1, 5, Record(expr.(fieldType := Some(KeyType(t.value))), t), ret, errors, keyTypes, arr, opts);
      } else {
        AppendKeepsSignificant(ret, expr);
      }
    } else if state == 2 || state == 3 || state == 5 {
      DelegationsRecordOnlySignificantTokens(ts, idx, state, expr, ret, errors, keyTypes, arr, opts);
    } else if state == 4 {
      if t.value !in keyTypes {
        EntriesRecordOnlySignificantTokens(ts, idx + 1, 4, Record(expr.(name := t.value), t), ret, errors, keyTypes, arr, opts);
      } else {
        EntriesRecordOnlySignificantTokens(ts, idx + 1, 5, Record(expr.(fieldType := Some(KeyType(t.value))), t), ret, errors, keyTypes, arr, opts);
      }
    } else if state == 6 {
      AppendKeepsSignificant(ret, expr);
      if t.value == "," {
        EntriesRecordOnlySignificantTokens(ts, idx + 1, 1, EMPTY, ret + [expr], errors, keyTypes, arr, opts);
      } else if t.value != ")" {
        RecordKeepsSignificant(EMPTY, t);
        EntriesRecordOnlySignificantTokens(ts, idx + 1, 6, Record(EMPTY, t), ret + [expr], errors, keyTypes, arr, opts);
      }
    } else {
      EntriesRecordOnlySignificantTokens(ts, idx + 1, state, Record(expr, t), ret, errors, keyTypes, arr, opts);
    }
  }

  /** The delegating states (data type, options, index list) record only their first, significant token. */
  lemma {:induction false} DelegationsRecordOnlySignificantTokens(
    ts: seq<Token>, idx: int, state: int, expr: FieldDefFragment, ret: seq<FieldDefFragment>,
    errors: seq<Diagnostic>, keyTypes: set<string>, arr: ArrayParser, opts: OptionsParser)
    requires 0 <= idx < |ts| && Significant(ts[idx])
    requires state == 2 || state == 3 || state == 5
    requires ArrayContract(arr) && OptionsContract(opts)
    requires AllSignificant(expr) && EntriesSignificant(ret)
    ensures EntriesSignificant(Loop(ts, idx, state, expr, ret, errors, keyTypes, arr, opts).fields)
    decreases |ts| - idx, Rank(state), 0
  {
    var t := ts[idx];
    RecordKeepsSignificant(expr, t);
    if state == 2 {
      var d := DataTypeFragment.Grammar(ts, idx, errors, arr, opts);
      DataTypeCursorBounds(ts, idx, errors, arr, opts);
      var next := Record(expr.(fieldType := ColumnTypeOf(d.node)), t);
      assert Step(ts, idx, state, expr, ret, errors, keyTypes, arr, opts) == Continue(d.last + 1, 3, next, ret, d.errors);
      EntriesRecordOnlySignificantTokens(ts, d.last + 1, 3, next, ret, d.errors, keyTypes, arr, opts);
    } else if state == 3 {
      var o := opts(ts, idx, FIELD_OPTIONS);
      var next := Record(expr.(options := Some(o.result)), t);
      assert Step(ts, idx, state, expr, ret, errors, keyTypes, arr, opts) == Continue(o.last + 1, 6, next, ret, errors);
      EntriesRecordOnlySignificantTokens(ts, o.last + 1, 6, next, ret, errors, keyTypes, arr, opts);
    } else {
      var a := arr(ts, idx);
      var next := Record(expr.(indexes := Some(a.result)), t);
      assert Step(ts, idx, state, expr, ret, errors, keyTypes, arr, opts) == Continue(a.last + 1, 6, next, ret, errors);
      EntriesRecordOnlySignificantTokens(ts, a.last + 1, 6, next, ret, errors, keyTypes, arr, opts);
    }
  }

  /**
   * The transitions out of the entry-start state (1): CONSTRAINT opens a
   * constraint, a key-type keyword starts a key, any other keyword is an error
   * that ends the grammar, and a non-keyword is a column name.
   */
  lemma EntryStartTransitions(ts: seq<Token>, idx: int, expr: FieldDefFragment, ret: seq<FieldDefFragment>,
                               errors: seq<Diagnostic>, keyTypes: set<string>, arr: ArrayParser, opts: OptionsParser)
    requires 0 <= idx < |ts| && Significant(ts[idx])
    requires ArrayContract(arr) && OptionsContract(opts)
    ensures var t := ts[idx];
            t.kind == Keyword && t.value == "CONSTRAINT" ==>
              Loop(ts, idx, 1, expr, ret, errors, keyTypes, arr, opts)
              == Loop(ts, idx + 1, 4, Record(expr, t), ret, errors, keyTypes, arr, opts)
    ensures var t := ts[idx];
            t.kind == Keyword && t.value != "CONSTRAINT" && t.value !in keyTypes ==>
              Loop(ts, idx, 1, expr, ret, errors, keyTypes, arr, opts)
              == Outcome(if expr.tokens != [] then ret + [expr] else ret, idx - 1,
                         errors + [Diagnostic(UNEXPECTED_KEYWORD, t)])
    ensures var t := ts[idx];
            t.kind == Keyword && t.value != "CONSTRAINT" && t.value in keyTypes ==>
              Loop(ts, idx, 1, expr, ret, errors, keyTypes, arr, opts)
              == Loop(ts, idx + 1, 5, Record(expr.(fieldType := Some(KeyType(t.value))), t), ret, errors, keyTypes, arr, opts)
    ensures var t := ts[idx];
            t.kind != Keyword ==>
              Loop(ts, idx, 1, expr, ret, errors, keyTypes, arr, opts)
              == Loop(ts, idx + 1, 2, Record(expr.(name := t.value), t), ret, errors, keyTypes, arr, opts)
  {
  }

  /** In the constraint state (4) every token is the constraint's name until a key-type keyword starts the key. */
  lemma ConstraintTransitions(ts: seq<Token>, idx: int, expr: FieldDefFragment, ret: seq<FieldDefFragment>,
                              errors: seq<Diagnostic>, keyTypes: set<string>, arr: ArrayParser, opts: OptionsParser)
    requires 0 <= idx < |ts| && Significant(ts[idx])
    requires ArrayContract(arr) && OptionsContract(opts)
    ensures var t := ts[idx];
            t.value in keyTypes ==>
              Loop(ts, idx, 4, expr, ret, errors, keyTypes, arr, opts)
              == Loop(ts, idx + 1, 5, Record(expr.(fieldType := Some(KeyType(t.value))), t), ret, errors, keyTypes, arr, opts)
    ensures var t := ts[idx];
            t.value !in keyTypes ==>
              Loop(ts, idx, 4, expr, ret, errors, keyTypes, arr, opts)
              == Loop(ts, idx + 1, 4, Record(expr.(name := t.value), t), ret, errors, keyTypes, arr, opts)
  {
  }

  /**
   * The end of an entry in state 6: a comma starts the next entry without
   * being recorded, a closing parenthesis is consumed and ends the grammar with
   * the cursor left on it.
   */
  lemma EntryEnds(ts: seq<Token>, idx: int, expr: FieldDefFragment, ret: seq<FieldDefFragment>,
                  errors: seq<Diagnostic>, keyTypes: set<string>, arr: ArrayParser, opts: OptionsParser)
    requires 0 <= idx < |ts| && Significant(ts[idx])
    requires ArrayContract(arr) && OptionsContract(opts)
    ensures ts[idx].value == "," ==>
              Loop(ts, idx, 6, expr, ret, errors, keyTypes, arr, opts)
              == Loop(ts, idx + 1, 1, EMPTY, ret + [expr], errors, keyTypes, arr, opts)
    ensures ts[idx].value == ")" ==>
              Loop(ts, idx, 6, expr, ret, errors, keyTypes, arr, opts) == Outcome(ret + [expr], idx, errors)
    ensures ts[idx].value != "," && ts[idx].value != ")" ==>
              Loop(ts, idx, 6, expr, ret, errors, keyTypes, arr, opts)
              == Loop(ts, idx + 1, 6, Record(EMPTY, ts[idx]), ret + [expr], errors, keyTypes, arr, opts)
  {
  }

  /**
   * The delegating states hand the cursor to one delegate each: the data-type
   * grammar in state 2 (then 3), the options grammar in state 3 (then 6) and
   * the list grammar in state 5 (then 6). The loop resumes one past the last
   * token the delegate consumed, and the token recorded is the one that was
   * under the cursor when the delegate was called.
   */
  lemma DelegationTransitions(ts: seq<Token>, idx: int, expr: FieldDefFragment, ret: seq<FieldDefFragment>,
                              errors: seq<Diagnostic>, keyTypes: set<string>, arr: ArrayParser, opts: OptionsParser)
    requires 0 <= idx < |ts| && Significant(ts[idx])
    requires ArrayContract(arr) && OptionsContract(opts)
    ensures var d := DataTypeFragment.Grammar(ts, idx, errors, arr, opts);
            idx <= d.last + 1 <= |ts| + 1 && errors <= d.errors &&
            Loop(ts, idx, 2, expr, ret, errors, keyTypes, arr, opts)
            == Loop(ts, d.last + 1, 3, Record(expr.(fieldType := ColumnTypeOf(d.node)), ts[idx]), ret, d.errors,
                    keyTypes, arr, opts)
    ensures var o := opts(ts, idx, FIELD_OPTIONS);
            Loop(ts, idx, 3, expr, ret, errors, keyTypes, arr, opts)
            == Loop(ts, o.last + 1, 6, Record(expr.(options := Some(o.result)), ts[idx]), ret, errors,
                    keyTypes, arr, opts)
    ensures var a := arr(ts, idx);
            Loop(ts, idx, 5, expr, ret, errors, keyTypes, arr, opts)
            == Loop(ts, a.last + 1, 6, Record(expr.(indexes := Some(a.result)), ts[idx]), ret, errors,
                    keyTypes, arr, opts)
  {
    DataTypeCursorBounds(ts, idx, errors, arr, opts);
  }

  /**
   * One pass of the body of FieldDefFragment::parse's loop on the token under
   * the cursor, which is not a delimiter: the cursor, the state, the entry in
   * progress and the finished entries move as `Step` says, and `done` reports
   * that the loop breaks (an unexpected keyword, or the closing parenthesis).
   */
  method Advance(parser: Parser, list: TokensList, state: int, expr: FieldDefFragment, ret: seq<FieldDefFragment>,
                 keyTypes: set<string>, arr: ArrayParser, opts: OptionsParser)
    returns (state': int, expr': FieldDefFragment, ret': seq<FieldDefFragment>, done: bool)
    requires list.Valid() && 0 <= list.idx < list.count && list.tokens[list.idx].kind != Delimiter
    requires ArrayContract(arr) && OptionsContract(opts)
    modifies list`idx, parser`errors
    ensures var n := Step(list.tokens, old(list.idx), state, expr, ret, old(parser.errors), keyTypes, arr, opts);
            if done then n == Stop(Finish(list.idx, expr', ret', parser.errors))
            else n == Continue(list.idx, state', expr', ret', parser.errors)
  {
    var token := list.tokens[list.idx];
    state', expr', ret', done := state, expr, ret, false;
    if token.kind == Whitespace || token.kind == Comment {
      list.idx := list.idx + 1;
      return;
    }
    if state == 0 {
      if token.kind == Operator && token.value == "(" {
        state' := 1;
      }
      list.idx := list.idx + 1;
      return;
    } else if state == 1 {
      if token.kind == Keyword {
        if token.value == "CONSTRAINT" {
          state' := 4;
        } else if token.value in keyTypes {
          expr' := expr.(fieldType := Some(KeyType(token.value)));
          state' := 5;
        } else {
          parser.Error(UNEXPECTED_KEYWORD, token);
          done := true;
          return;
        }
      } else {
        expr' := expr.(name := token.value);
        state' := 2;
      }
    } else if state == 2 {
      DataTypeCursorBounds(list.tokens, list.idx, parser.errors, arr, opts);
      var d := DataTypeFragment.Parse(parser, list, arr, opts);
      expr' := expr.(fieldType := ColumnTypeOf(d));
      state' := 3;
    } else if state == 3 {
      var o := opts(list.tokens, list.idx, FIELD_OPTIONS);
      list.idx := o.last;
      expr' := expr.(options := Some(o.result));
      state' := 6;
    } else if state == 4 {
      if token.value !in keyTypes {
        expr' := expr.(name := token.value);
      } else {
        expr' := expr.(fieldType := Some(KeyType(token.value)));
        state' := 5;
      }
    } else if state == 5 {
      var a := arr(list.tokens, list.idx);
      list.idx := a.last;
      expr' := expr.(indexes := Some(a.result));
      state' := 6;
    } else if state == 6 {
      ret' := ret + [expr];
      expr' := EMPTY;
      if token.value == "," {
        state' := 1;
        list.idx := list.idx + 1;
        return;
      } else if token.value == ")" {
        list.idx := list.idx + 1;
        done := true;
        return;
      }
    }
    expr' := Record(expr', token);
    list.idx := list.idx + 1;
  }

  /** FieldDefFragment::parse. */
  method Parse(parser: Parser, list: TokensList, keyTypes: set<string>, arr: ArrayParser, opts: OptionsParser)
    returns (ret: seq<FieldDefFragment>)
    requires list.Valid() && 0 <= list.idx <= list.count
    requires ArrayContract(arr) && OptionsContract(opts)
    modifies list`idx, parser`errors
    ensures var r := Grammar(list.tokens, old(list.idx), old(parser.errors), keyTypes, arr, opts);
            ret == r.fields && list.idx == r.last && parser.errors == r.errors
  {
    ghost var target := Grammar(list.tokens, list.idx, parser.errors, keyTypes, arr, opts);
    ret := [];
    var expr := EMPTY;
    var state := 0;
    while list.idx < list.count
      invariant 0 <= list.idx <= list.count + 1
      invariant Loop(list.tokens, list.idx, state, expr, ret, parser.errors, keyTypes, arr, opts) == target
      decreases list.count - list.idx, Rank(state)
    {
      if list.tokens[list.idx].kind == Delimiter {
        break;
      }
      var done;
      state, expr, ret, done := Advance(parser, list, state, expr, ret, keyTypes, arr, opts);
      if done {
        break;
      }
    }
    assert Finish(list.idx, expr, ret, parser.errors) == target;
    if expr.tokens != [] {
      ret := ret + [expr];
    }
    list.idx := list.idx - 1;
  }

  /** The field options: NOT NULL/NULL share a slot, DEFAULT, COMMENT and COLUMN_FORMAT capture a value. */
  lemma OptionTableShape()
    ensures FIELD_OPTIONS["NOT NULL"].slot == FIELD_OPTIONS["NULL"].slot == 1
    ensures forall k :: k in FIELD_OPTIONS && FIELD_OPTIONS[k].captures <==> k in {"DEFAULT", "COMMENT", "COLUMN_FORMAT"}
    ensures forall k :: k in FIELD_OPTIONS ==> 1 <= FIELD_OPTIONS[k].slot <= 6
  {
  }
}
