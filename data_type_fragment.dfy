/**
 * The data-type grammar: a type name, an optional parenthesised size or value
 * list, then the data-type options (`INT(10) UNSIGNED`, `ENUM('a','b')`).
 */
module DataTypeFragment {
  import opened Wrappers
  import opened Php
  import opened Tokens
  import opened Delegates

  /** The options a data type accepts; CHARACTER SET and CHARSET are one slot. */
  const DATA_TYPE_OPTIONS: OptionTable := map[
    "BINARY" := OptionSpec(1, false),
    "CHARACTER SET" := OptionSpec(2, true),
    "CHARSET" := OptionSpec(2, true),
    "COLLATE" := OptionSpec(3, false),
    "UNSIGNED" := OptionSpec(4, false),
    "ZEROFILL" := OptionSpec(5, false)
  ]

  const UNRECOGNIZED_DATA_TYPE := "Unrecognized data type."

  /** A parsed data type; `options` is None when the input ended right after the name. */
  datatype DataTypeFragment = DataTypeFragment(name: string, parameters: seq<string>, options: Option<OptionsFragment>)

  /** A run of the grammar: the node (None for null), where the cursor is left, and all diagnostics so far. */
  datatype Outcome = Outcome(node: Option<DataTypeFragment>, last: int, errors: seq<Diagnostic>)

  /** The tail of the parser: null when the name is PHP-empty (none captured, or "0"), otherwise the node with the cursor stepped back. */
  function Finish(name: string, parameters: seq<string>, options: Option<OptionsFragment>, idx: int,
                  errors: seq<Diagnostic>): (r: Outcome)
    ensures r.errors == errors
    ensures r.node.None? <==> PhpEmpty(name)
    ensures r.last == if PhpEmpty(name) then idx else idx - 1
  {
    if PhpEmpty(name) then Outcome(None, idx, errors)
    else Outcome(Some(DataTypeFragment(name, parameters, options)), idx - 1, errors)
  }

  /** The diagnostics after looking at the candidate name token. */
  function NameErrors(t: Token, errors: seq<Diagnostic>): seq<Diagnostic>
  {
    if t.kind != Keyword || !t.dataType then errors + [Diagnostic(UNRECOGNIZED_DATA_TYPE, t)] else errors
  }

  /** The size list's parameters: its raw text for ENUM and SET, its values otherwise. */
  function Parameters(name: string, size: ArrayFragment): seq<string>
  {
    if name == "ENUM" || name == "SET" then size.raw else size.values
  }

  /**
   * What the second significant token (at `idx`) starts: an optional size list
   * when it is `(`, then the options; the result carries the cursor after the
   * options parser's last token, i.e. where the loop breaks.
   */
  function SizeAndOptions(ts: seq<Token>, idx: int, name: string, arr: ArrayParser, opts: OptionsParser)
    : (r: (seq<string>, OptionsFragment, int))
    requires 0 <= idx < |ts|
    requires ArrayContract(arr) && OptionsContract(opts)
    ensures idx <= r.2 <= |ts|
  {
    var size := arr(ts, idx);
    var parameters := if IsOperator(ts[idx], "(") then Parameters(name, size.result) else [];
    var j := if IsOperator(ts[idx], "(") then size.last + 1 else idx;
    var o := opts(ts, j, DATA_TYPE_OPTIONS);
    (parameters, o.result, o.last + 1)
  }

  /** The parser's loop, from cursor `idx` in `state` with the name captured so far. */
  function Loop(ts: seq<Token>, idx: int, state: int, name: string, errors: seq<Diagnostic>,
                arr: ArrayParser, opts: OptionsParser): Outcome
    requires 0 <= idx <= |ts|
    requires ArrayContract(arr) && OptionsContract(opts)
    decreases |ts| - idx
  {
    if idx == |ts| then Finish(name, [], None, idx, errors)
    else if IsTrivia(ts[idx]) then Loop(ts, idx + 1, state, name, errors, arr, opts)
    else if state == 0 then Loop(ts, idx + 1, 1, Upper(ts[idx].value), NameErrors(ts[idx], errors), arr, opts)
    else if state == 1 then
      var (parameters, options, stop) := SizeAndOptions(ts, idx, name, arr, opts);
      Finish(name, parameters, Some(options), stop, errors)
    else Loop(ts, idx + 1, state, name, errors, arr, opts)
  }

  /**
   * The grammar stated directly: the first significant token is the name, the
   * next significant token starts the size list and options.
   */
  function Grammar(ts: seq<Token>, i: int, errors: seq<Diagnostic>, arr: ArrayParser, opts: OptionsParser): Outcome
    requires 0 <= i <= |ts|
    requires ArrayContract(arr) && OptionsContract(opts)
  {
    var j := NextSignificant(ts, i);
    if j == |ts| then Outcome(None, |ts|, errors)
    else
      var name := Upper(ts[j].value);
      var k := NextSignificant(ts, j + 1);
      if k == |ts| then Finish(name, [], None, |ts|, NameErrors(ts[j], errors))
      else
        var (parameters, options, stop) := SizeAndOptions(ts, k, name, arr, opts);
        Finish(name, parameters, Some(options), stop, NameErrors(ts[j], errors))
  }

  /** Whitespace and comments neither change the state nor anything captured. */
  lemma {:induction false} LoopSkipsTrivia(ts: seq<Token>, idx: int, state: int, name: string,
                                           errors: seq<Diagnostic>, arr: ArrayParser, opts: OptionsParser)
    requires 0 <= idx <= |ts|
    requires ArrayContract(arr) && OptionsContract(opts)
    ensures Loop(ts, idx, state, name, errors, arr, opts)
         == Loop(ts, NextSignificant(ts, idx), state, name, errors, arr, opts)
    decreases |ts| - idx
  {
    if idx < |ts| && IsTrivia(ts[idx]) {
      LoopSkipsTrivia(ts, idx + 1, state, name, errors, arr, opts);
    }
  }

  /** The loop, started in state 0 with no name, computes exactly the grammar. */
  lemma LoopIsGrammar(ts: seq<Token>, i: int, errors: seq<Diagnostic>, arr: ArrayParser, opts: OptionsParser)
    requires 0 <= i <= |ts|
    requires ArrayContract(arr) && OptionsContract(opts)
    ensures Loop(ts, i, 0, "", errors, arr, opts) == Grammar(ts, i, errors, arr, opts)
  {
    LoopSkipsTrivia(ts, i, 0, "", errors, arr, opts);
    var j := NextSignificant(ts, i);
    if j < |ts| {
      LoopSkipsTrivia(ts, j + 1, 1, Upper(ts[j].value), NameErrors(ts[j], errors), arr, opts);
    }
  }

  /** The three ways the grammar ends, with the size list and options spelled out. */
  lemma GrammarCases(ts: seq<Token>, i: int, errors: seq<Diagnostic>, arr: ArrayParser, opts: OptionsParser)
    requires 0 <= i <= |ts|
    requires ArrayContract(arr) && OptionsContract(opts)
    ensures var r := Grammar(ts, i, errors, arr, opts);
            var j := NextSignificant(ts, i);
            j < |ts| ==>
              var k := NextSignificant(ts, j + 1);
              var name := Upper(ts[j].value);
              (k == |ts| ==> r == Finish(name, [], None, |ts|, NameErrors(ts[j], errors))) &&
              (k < |ts| ==>
                 var size := arr(ts, k);
                 var start := if IsOperator(ts[k], "(") then size.last + 1 else k;
                 var o := opts(ts, start, DATA_TYPE_OPTIONS);
                 r == Finish(name, if IsOperator(ts[k], "(") then Parameters(name, size.result) else [],
                             Some(o.result), o.last + 1, NameErrors(ts[j], errors)))
  {
  }

  /**
   * The name is the upper-cased value of the first significant token; an error
   * is reported exactly when that token is not a data-type keyword, and the
   * grammar continues either way.
   */
  lemma NameAndError(ts: seq<Token>, i: int, errors: seq<Diagnostic>, arr: ArrayParser, opts: OptionsParser)
    requires 0 <= i <= |ts|
    requires ArrayContract(arr) && OptionsContract(opts)
    ensures var j := NextSignificant(ts, i);
            var r := Loop(ts, i, 0, "", errors, arr, opts);
            (j == |ts| ==> r == Outcome(None, |ts|, errors)) &&
            (j < |ts| ==>
              (r.node.Some? <==> !PhpEmpty(Upper(ts[j].value))) &&
              (r.node.Some? ==> r.node.value.name == Upper(ts[j].value)) &&
              (ts[j].kind == Keyword && ts[j].dataType ==> r.errors == errors) &&
              (!(ts[j].kind == Keyword && ts[j].dataType) ==>
                 r.errors == errors + [Diagnostic(UNRECOGNIZED_DATA_TYPE, ts[j])]))
  {
    LoopIsGrammar(ts, i, errors, arr, opts);
  }

  /**
   * The parameters: when `(` follows the name they come from the list parser
   * (raw text for ENUM and SET, parsed values otherwise); otherwise they stay empty.
   */
  lemma ParametersFromSizeList(ts: seq<Token>, i: int, errors: seq<Diagnostic>, arr: ArrayParser, opts: OptionsParser)
    requires 0 <= i <= |ts|
    requires ArrayContract(arr) && OptionsContract(opts)
    ensures var r := Loop(ts, i, 0, "", errors, arr, opts);
            var j := NextSignificant(ts, i);
            j < |ts| && r.node.Some? ==>
              var k := NextSignificant(ts, j + 1);
              var name := r.node.value.name;
              (k < |ts| && IsOperator(ts[k], "(") ==>
                 r.node.value.parameters ==
                   (if name == "ENUM" || name == "SET" then arr(ts, k).result.raw else arr(ts, k).result.values)) &&
              (!(k < |ts| && IsOperator(ts[k], "(")) ==> r.node.value.parameters == [])
  {
    LoopIsGrammar(ts, i, errors, arr, opts);
    GrammarCases(ts, i, errors, arr, opts);
  }

  /**
   * Where the cursor is left: on success, on the options parser's last token
   * (the `++idx` after it is undone by the final `--idx`); on the null path the
   * cursor stays where the loop stopped, one past the end when no token was found.
   */
  lemma CursorOnExit(ts: seq<Token>, i: int, errors: seq<Diagnostic>, arr: ArrayParser, opts: OptionsParser)
    requires 0 <= i <= |ts|
    requires ArrayContract(arr) && OptionsContract(opts)
    ensures var r := Loop(ts, i, 0, "", errors, arr, opts);
            var j := NextSignificant(ts, i);
            var k := if j < |ts| then NextSignificant(ts, j + 1) else |ts|;
            (k < |ts| ==>
               var start := if IsOperator(ts[k], "(") then arr(ts, k).last + 1 else k;
               var o := opts(ts, start, DATA_TYPE_OPTIONS);
               r.last == (if r.node.Some? then o.last else o.last + 1)) &&
            (k == |ts| ==> r.last == (if r.node.Some? then |ts| - 1 else |ts|)) &&
            i - 1 <= r.last <= |ts|
  {
    LoopIsGrammar(ts, i, errors, arr, opts);
    GrammarCases(ts, i, errors, arr, opts);
  }

  /** CHARACTER SET and CHARSET share slot 2 and capture a value; COLLATE is slot 3 without one. */
  lemma OptionTableShape()
    ensures DATA_TYPE_OPTIONS["CHARACTER SET"] == DATA_TYPE_OPTIONS["CHARSET"] == OptionSpec(2, true)
    ensures DATA_TYPE_OPTIONS["COLLATE"] == OptionSpec(3, false)
    ensures forall k :: k in DATA_TYPE_OPTIONS ==> 1 <= DATA_TYPE_OPTIONS[k].slot <= 5
  {
  }

  /**
   * The second significant token of DataTypeFragment::parse: an optional size
   * list when it is `(`, then the options; the cursor is left one past the
   * options parser's last token.
   */
  method ParseSizeAndOptions(list: TokensList, name: string, arr: ArrayParser, opts: OptionsParser)
    returns (parameters: seq<string>, options: OptionsFragment)
    requires list.Valid() && 0 <= list.idx < list.count
    requires ArrayContract(arr) && OptionsContract(opts)
    modifies list`idx
    ensures (parameters, options, list.idx) == SizeAndOptions(list.tokens, old(list.idx), name, arr, opts)
  {
    var token := list.tokens[list.idx];
    parameters := [];
    if token.kind == Operator && token.value == "(" {
      var size := arr(list.tokens, list.idx);
      list.idx := size.last;
      list.idx := list.idx + 1;
      parameters := if name == "ENUM" || name == "SET" then size.result.raw else size.result.values;
    }
    var o := opts(list.tokens, list.idx, DATA_TYPE_OPTIONS);
    options := o.result;
    list.idx := o.last;
    list.idx := list.idx + 1;
  }

  /**
   * DataTypeFragment::parse. Leaves the cursor on the last token it consumed
   * and reports through the parser; when it returns null (the name is
   * PHP-empty: none was read, or it is "0") the cursor is not stepped back and
   * stays one past the last consumed token.
   */
  method Parse(parser: Parser, list: TokensList, arr: ArrayParser, opts: OptionsParser)
    returns (ret: Option<DataTypeFragment>)
    requires list.Valid() && 0 <= list.idx <= list.count
    requires ArrayContract(arr) && OptionsContract(opts)
    modifies list`idx, parser`errors
    ensures var r := Grammar(list.tokens, old(list.idx), old(parser.errors), arr, opts);
            ret == r.node && list.idx == r.last && parser.errors == r.errors
  {
    ghost var target := Loop(list.tokens, list.idx, 0, "", parser.errors, arr, opts);
    LoopIsGrammar(list.tokens, list.idx, parser.errors, arr, opts);
    var name := "";
    var parameters: seq<string> := [];
    var options: Option<OptionsFragment> := None;
    var state := 0;
    while list.idx < list.count
      invariant 0 <= list.idx <= list.count
      invariant parameters == [] && options == None
      invariant Loop(list.tokens, list.idx, state, name, parser.errors, arr, opts) == target
      decreases list.count - list.idx
    {
      var token := list.tokens[list.idx];
      if token.kind == Whitespace || token.kind == Comment {
        list.idx := list.idx + 1;
        continue;
      }
      if state == 0 {
        name := Upper(token.value);
        if token.kind != Keyword || !token.dataType {
          parser.Error(UNRECOGNIZED_DATA_TYPE, token);
        }
        state := 1;
      } else if state == 1 {
        var o;
        parameters, o := ParseSizeAndOptions(list, name, arr, opts);
        options := Some(o);
        break;
      }
      list.idx := list.idx + 1;
    }
    assert Finish(name, parameters, options, list.idx, parser.errors) == target;
    if PhpEmpty(name) {
      return None;
    }
    list.idx := list.idx - 1;
    ret := Some(DataTypeFragment(name, parameters, options));
  }
}
