/**
 * The assignment list after `SET`: `col = value, col = value, ...`, each
 * entry kept with the tokens it was read from.
 */
module SetKeyword {
  import opened Tokens

  /** One assignment; a missing column or value reads as "". */
  datatype SetKeyword = SetKeyword(column: string, value: string, tokens: seq<Token>)

  const EMPTY := SetKeyword("", "", [])

  /** A run of the grammar: the entries and where the cursor is left. */
  datatype Outcome = Outcome(entries: seq<SetKeyword>, last: int)

  /** The list ends at a delimiter or at any keyword. */
  predicate Stops(t: Token)
  {
    t.kind == Delimiter || t.kind == Keyword
  }

  predicate IsComma(t: Token)
  {
    IsOperator(t, ",")
  }

  /** A token that belongs to an entry: significant and not a separating comma. */
  predicate Kept(t: Token)
  {
    !IsTrivia(t) && !IsComma(t)
  }

  /** End of the loop: the pending entry is saved if it holds any token; the cursor steps back. */
  function Finish(idx: int, expr: SetKeyword, ret: seq<SetKeyword>): Outcome
  {
    Outcome(if expr.tokens != [] then ret + [expr] else ret, idx - 1)
  }

  /** The parser's loop from cursor `idx` in `state` with the pending entry and the saved ones. */
  function Loop(ts: seq<Token>, idx: int, state: int, expr: SetKeyword, ret: seq<SetKeyword>): (r: Outcome)
    requires 0 <= idx <= |ts|
    ensures idx - 1 <= r.last < |ts|
    decreases |ts| - idx
  {
    if idx == |ts| then Finish(idx, expr, ret)
    else
      var t := ts[idx];
      if t.kind == Delimiter then Finish(idx, expr, ret)
      else if IsTrivia(t) then Loop(ts, idx + 1, state, expr, ret)
      else if t.kind == Keyword then Finish(idx, expr, ret)
      else if IsComma(t) then Loop(ts, idx + 1, 0, EMPTY, ret + [expr])
      else Loop(ts, idx + 1, StepState(state, t), Step(expr, state, t), ret)
  }

  /** `=` moves to state 1 for good; any other token keeps the state. */
  function StepState(state: int, t: Token): int
  {
    if IsOperator(t, "=") then 1 else state
  }

  /**
   * One token joins the pending entry: before any `=` its value extends the
   * column, from the `=` on it replaces the value.
   */
  function Step(expr: SetKeyword, state: int, t: Token): (e: SetKeyword)
    ensures e.tokens == expr.tokens + [t]
  {
    var tokens := expr.tokens + [t];
    if StepState(state, t) == 0 then expr.(column := expr.column + t.value, tokens := tokens)
    else expr.(value := t.value, tokens := tokens)
  }

  /** The whole grammar, started at cursor `i` with an empty pending entry. */
  function Grammar(ts: seq<Token>, i: int): Outcome
    requires 0 <= i <= |ts|
  {
    Loop(ts, i, 0, EMPTY, [])
  }

  /** The first stopping token at or after `i`, or the end. */
  function FirstStop(ts: seq<Token>, i: int): (s: int)
    requires 0 <= i <= |ts|
    ensures i <= s <= |ts|
    ensures forall k :: i <= k < s ==> !Stops(ts[k])
    ensures s < |ts| ==> Stops(ts[s])
    decreases |ts| - i
  {
    if i == |ts| || Stops(ts[i]) then i else FirstStop(ts, i + 1)
  }

  /** Some token of the entry is the `=` operator. */
  predicate HasAssign(toks: seq<Token>)
  {
    exists k :: 0 <= k < |toks| && IsOperator(toks[k], "=")
  }

  /** The values of the tokens before the first `=`, concatenated. */
  function ColumnOf(toks: seq<Token>): string
  {
    if toks == [] then ""
    else if IsOperator(toks[0], "=") then ""
    else toks[0].value + ColumnOf(toks[1..])
  }

  /**
   * What an entry read from `toks` holds: the column is the text before the
   * first `=`; the value is the last token's value once an `=` was seen.
   */
  function EntryOf(toks: seq<Token>): SetKeyword
  {
    SetKeyword(ColumnOf(toks), if HasAssign(toks) then toks[|toks| - 1].value else "", toks)
  }

  function EntriesOf(segments: seq<seq<Token>>): (r: seq<SetKeyword>)
    ensures |r| == |segments|
  {
    if segments == [] then [] else [EntryOf(segments[0])] + EntriesOf(segments[1..])
  }

  lemma {:induction false} EntriesOfAt(segments: seq<seq<Token>>)
    ensures forall n :: 0 <= n < |segments| ==> EntriesOf(segments)[n] == EntryOf(segments[n])
  {
    if segments != [] {
      EntriesOfAt(segments[1..]);
    }
  }

  /**
   * The significant tokens of [k, stop) split at the commas; `cur` is the
   * segment already begun. A trailing empty segment is dropped, any other is kept.
   */
  function Split(ts: seq<Token>, k: int, stop: int, cur: seq<Token>): seq<seq<Token>>
    requires 0 <= k <= stop <= |ts|
    decreases stop - k
  {
    if k == stop then (if cur != [] then [cur] else [])
    else if IsTrivia(ts[k]) then Split(ts, k + 1, stop, cur)
    else if IsComma(ts[k]) then [cur] + Split(ts, k + 1, stop, [])
    else Split(ts, k + 1, stop, cur + [ts[k]])
  }

  /** The segments of the list that starts at `i`. */
  function Segments(ts: seq<Token>, i: int): seq<seq<Token>>
    requires 0 <= i <= |ts|
  {
    Split(ts, i, FirstStop(ts, i), [])
  }

  /** The kept tokens of [k, stop), in order. */
  function KeptTokens(ts: seq<Token>, k: int, stop: int): seq<Token>
    requires 0 <= k <= stop <= |ts|
    decreases stop - k
  {
    if k == stop then [] else (if Kept(ts[k]) then [ts[k]] else []) + KeptTokens(ts, k + 1, stop)
  }

  function Flatten(segments: seq<seq<Token>>): seq<Token>
  {
    if segments == [] then [] else segments[0] + Flatten(segments[1..])
  }

  /** The number of commas in [k, stop). */
  function Commas(ts: seq<Token>, k: int, stop: int): nat
    requires 0 <= k <= stop <= |ts|
    decreases stop - k
  {
    if k == stop then 0 else (if IsComma(ts[k]) then 1 else 0) + Commas(ts, k + 1, stop)
  }

  /** No kept token follows the last comma of [k, stop) (or, with no comma, none at all). */
  predicate LastSegmentEmpty(ts: seq<Token>, k: int, stop: int)
    requires 0 <= k <= stop <= |ts|
    decreases stop - k
  {
    stop == k || IsComma(ts[stop - 1]) || (IsTrivia(ts[stop - 1]) && LastSegmentEmpty(ts, k, stop - 1))
  }

  /** The pending entry agrees with EntryOf, and the state says whether its `=` was seen. */
  predicate Consistent(expr: SetKeyword, state: int)
  {
    expr == EntryOf(expr.tokens) && state == (if HasAssign(expr.tokens) then 1 else 0)
  }

  lemma {:induction false} ColumnOfSnoc(toks: seq<Token>, t: Token)
    ensures ColumnOf(toks + [t])
         == if HasAssign(toks) || IsOperator(t, "=") then ColumnOf(toks) else ColumnOf(toks) + t.value
  {
    if toks == [] {
      assert ColumnOf([t]) == (if IsOperator(t, "=") then "" else t.value + ColumnOf([]));
    } else {
      assert (toks + [t])[1..] == toks[1..] + [t];
      if !IsOperator(toks[0], "=") {
        ColumnOfSnoc(toks[1..], t);
        assert HasAssign(toks[1..]) ==> HasAssign(toks) by {
          if HasAssign(toks[1..]) {
            var k :| 0 <= k < |toks[1..]| && IsOperator(toks[1..][k], "=");
            assert IsOperator(toks[k + 1], "=");
          }
        }
        assert HasAssign(toks) ==> HasAssign(toks[1..]) by {
          if HasAssign(toks) {
            var k :| 0 <= k < |toks| && IsOperator(toks[k], "=");
            assert k != 0;
            assert IsOperator(toks[1..][k - 1], "=");
          }
        }
      } else {
        assert HasAssign(toks) by { assert IsOperator(toks[0], "="); }
      }
    }
  }

  lemma HasAssignSnoc(toks: seq<Token>, t: Token)
    ensures HasAssign(toks + [t]) <==> HasAssign(toks) || IsOperator(t, "=")
  {
    if HasAssign(toks) {
      var k :| 0 <= k < |toks| && IsOperator(toks[k], "=");
      assert IsOperator((toks + [t])[k], "=");
    }
    if IsOperator(t, "=") {
      assert IsOperator((toks + [t])[|toks|], "=");
    }
    if HasAssign(toks + [t]) && !IsOperator(t, "=") {
      var k :| 0 <= k < |toks + [t]| && IsOperator((toks + [t])[k], "=");
      assert k < |toks| && IsOperator(toks[k], "=");
    }
  }

  /** Adding one non-comma token keeps the pending entry in agreement with EntryOf. */
  lemma ConsistentStep(expr: SetKeyword, state: int, t: Token)
    requires Consistent(expr, state)
    ensures Consistent(Step(expr, state, t), StepState(state, t))
  {
    ColumnOfSnoc(expr.tokens, t);
    HasAssignSnoc(expr.tokens, t);
  }

  /** At the stop the pending entry, if it holds a token, is the one remaining segment. */
  lemma ReadsSegmentsAtStop(ts: seq<Token>, idx: int, state: int, expr: SetKeyword, ret: seq<SetKeyword>)
    requires 0 <= idx <= |ts| && FirstStop(ts, idx) == idx
    requires expr == EntryOf(expr.tokens)
    ensures Loop(ts, idx, state, expr, ret).entries == ret + EntriesOf(Split(ts, idx, idx, expr.tokens))
  {
    assert Loop(ts, idx, state, expr, ret) == Finish(idx, expr, ret);
    if expr.tokens != [] {
      assert EntriesOf([expr.tokens]) == [expr];
    } else {
      assert ret + EntriesOf([]) == ret;
    }
  }

  /** A comma closes the pending entry as one segment. */
  lemma ReadsSegmentsAtComma(ts: seq<Token>, idx: int, stop: int, expr: SetKeyword, ret: seq<SetKeyword>,
                             tail: seq<SetKeyword>)
    requires 0 <= idx < stop <= |ts| && IsComma(ts[idx])
    requires expr == EntryOf(expr.tokens)
    requires tail == ret + [expr] + EntriesOf(Split(ts, idx + 1, stop, []))
    ensures tail == ret + EntriesOf(Split(ts, idx, stop, expr.tokens))
  {
    var rest := Split(ts, idx + 1, stop, []);
    assert Split(ts, idx, stop, expr.tokens) == [expr.tokens] + rest;
    assert EntriesOf([expr.tokens] + rest) == [expr] + EntriesOf(rest) by {
      assert ([expr.tokens] + rest)[1..] == rest;
    }
    assert ret + [expr] + EntriesOf(rest) == ret + ([expr] + EntriesOf(rest));
  }

  /**
   * The entries are the segments between commas, each read by EntryOf; an
   * empty segment before a comma still yields an (empty) entry.
   */
  lemma {:induction false} LoopReadsSegments(ts: seq<Token>, idx: int, state: int, expr: SetKeyword,
                                             ret: seq<SetKeyword>)
    requires 0 <= idx <= |ts|
    requires Consistent(expr, state)
    ensures Loop(ts, idx, state, expr, ret).entries
         == ret + EntriesOf(Split(ts, idx, FirstStop(ts, idx), expr.tokens))
    decreases |ts| - idx
  {
    var stop := FirstStop(ts, idx);
    if idx == stop {
      ReadsSegmentsAtStop(ts, idx, state, expr, ret);
    } else {
      var t := ts[idx];
      assert FirstStop(ts, idx + 1) == stop;
      if IsTrivia(t) {
        LoopReadsSegments(ts, idx + 1, state, expr, ret);
      } else if IsComma(t) {
        assert Consistent(EMPTY, 0) by {
          assert EMPTY == EntryOf([]);
        }
        LoopReadsSegments(ts, idx + 1, 0, EMPTY, ret + [expr]);
        ReadsSegmentsAtComma(ts, idx, stop, expr, ret, Loop(ts, idx, state, expr, ret).entries);
      } else {
        ConsistentStep(expr, state, t);
        LoopReadsSegments(ts, idx + 1, StepState(state, t), Step(expr, state, t), ret);
      }
    }
  }

  /** The loop stops at FirstStop and leaves the cursor one before it. */
  lemma {:induction false} LoopStopsAtFirstStop(ts: seq<Token>, idx: int, state: int, expr: SetKeyword,
                                                ret: seq<SetKeyword>)
    requires 0 <= idx <= |ts|
    ensures Loop(ts, idx, state, expr, ret).last == FirstStop(ts, idx) - 1
    decreases |ts| - idx
  {
    if idx < |ts| && !Stops(ts[idx]) {
      var t := ts[idx];
      if IsTrivia(t) {
        LoopStopsAtFirstStop(ts, idx + 1, state, expr, ret);
      } else if IsComma(t) {
        LoopStopsAtFirstStop(ts, idx + 1, 0, EMPTY, ret + [expr]);
      } else {
        LoopStopsAtFirstStop(ts, idx + 1, StepState(state, t), Step(expr, state, t), ret);
      }
    }
  }

  /** The whole grammar reads the segments of the list and stops one before FirstStop. */
  lemma GrammarShape(ts: seq<Token>, i: int)
    requires 0 <= i <= |ts|
    ensures Grammar(ts, i).entries == EntriesOf(Segments(ts, i))
    ensures Grammar(ts, i).last == FirstStop(ts, i) - 1
  {
    assert Consistent(EMPTY, 0);
    LoopReadsSegments(ts, i, 0, EMPTY, []);
    LoopStopsAtFirstStop(ts, i, 0, EMPTY, []);
  }

  lemma {:induction false} FlattenAppend(a: seq<seq<Token>>, b: seq<seq<Token>>)
    ensures Flatten(a + b) == Flatten(a) + Flatten(b)
  {
    if a == [] {
      assert a + b == b;
    } else {
      assert (a + b)[1..] == a[1..] + b;
      FlattenAppend(a[1..], b);
    }
  }

  /** Splitting loses and reorders nothing: the segments joined are the kept tokens. */
  lemma {:induction false} SplitKeepsTokens(ts: seq<Token>, k: int, stop: int, cur: seq<Token>)
    requires 0 <= k <= stop <= |ts|
    ensures Flatten(Split(ts, k, stop, cur)) == cur + KeptTokens(ts, k, stop)
    decreases stop - k
  {
    if k == stop {
      assert KeptTokens(ts, k, stop) == [];
      if cur != [] {
        assert Flatten([cur]) == cur + Flatten([]);
      }
    } else if IsTrivia(ts[k]) {
      assert KeptTokens(ts, k, stop) == KeptTokens(ts, k + 1, stop);
      SplitKeepsTokens(ts, k + 1, stop, cur);
    } else if IsComma(ts[k]) {
      assert KeptTokens(ts, k, stop) == KeptTokens(ts, k + 1, stop);
      SplitKeepsTokens(ts, k + 1, stop, []);
      FlattenAppend([cur], Split(ts, k + 1, stop, []));
      assert Flatten([cur]) == cur + Flatten([]);
    } else {
      assert KeptTokens(ts, k, stop) == [ts[k]] + KeptTokens(ts, k + 1, stop);
      SplitKeepsTokens(ts, k + 1, stop, cur + [ts[k]]);
      assert cur + [ts[k]] + KeptTokens(ts, k + 1, stop) == cur + ([ts[k]] + KeptTokens(ts, k + 1, stop));
    }
  }


  lemma {:induction false} LastSegmentEmptyStep(ts: seq<Token>, k: int, stop: int)
    requires 0 <= k < stop <= |ts|
    ensures LastSegmentEmpty(ts, k, stop)
        <==> LastSegmentEmpty(ts, k + 1, stop) && (Commas(ts, k + 1, stop) > 0 || !Kept(ts[k]))
    decreases stop - k
  {
    if stop > k + 1 {
      CommasBack(ts, k + 1, stop);
      if !IsComma(ts[stop - 1]) && IsTrivia(ts[stop - 1]) {
        LastSegmentEmptyStep(ts, k, stop - 1);
      }
    }
  }

  /** Commas can be counted from the back as well as from the front. */
  lemma {:induction false} CommasBack(ts: seq<Token>, k: int, stop: int)
    requires 0 <= k < stop <= |ts|
    ensures Commas(ts, k, stop) == Commas(ts, k, stop - 1) + (if IsComma(ts[stop - 1]) then 1 else 0)
    decreases stop - k
  {
    if k + 1 < stop {
      CommasBack(ts, k + 1, stop);
    }
  }

  /**
   * One entry per comma, plus one for the last segment when it holds a token
   * (with no comma at all, the segment already begun counts too).
   */
  lemma {:induction false} SplitCount(ts: seq<Token>, k: int, stop: int, cur: seq<Token>)
    requires 0 <= k <= stop <= |ts|
    ensures |Split(ts, k, stop, cur)|
         == Commas(ts, k, stop)
            + (if !LastSegmentEmpty(ts, k, stop) || (cur != [] && Commas(ts, k, stop) == 0) then 1 else 0)
    decreases stop - k
  {
    if k < stop {
      LastSegmentEmptyStep(ts, k, stop);
      if IsTrivia(ts[k]) {
        SplitCount(ts, k + 1, stop, cur);
      } else if IsComma(ts[k]) {
        SplitCount(ts, k + 1, stop, []);
      } else {
        SplitCount(ts, k + 1, stop, cur + [ts[k]]);
      }
    }
  }

  /**
   * The properties of the grammar as a whole: every entry is EntryOf its own
   * tokens, the entries' tokens joined are the list's kept tokens, and there
   * is one entry per comma plus one for a non-empty last segment.
   */
  lemma EntriesSummary(ts: seq<Token>, i: int)
    requires 0 <= i <= |ts|
    ensures var r := Grammar(ts, i);
            (forall n :: 0 <= n < |r.entries| ==> r.entries[n] == EntryOf(r.entries[n].tokens)) &&
            Flatten(Segments(ts, i)) == KeptTokens(ts, i, FirstStop(ts, i)) &&
            |r.entries| == Commas(ts, i, FirstStop(ts, i))
                           + (if LastSegmentEmpty(ts, i, FirstStop(ts, i)) then 0 else 1)
  {
    GrammarShape(ts, i);
    EntriesOfAt(Segments(ts, i));
    SplitKeepsTokens(ts, i, FirstStop(ts, i), []);
    SplitCount(ts, i, FirstStop(ts, i), []);
  }

  /** SetKeyword::parse. */
  method Parse(list: TokensList) returns (ret: seq<SetKeyword>)
    requires list.Valid() && 0 <= list.idx <= list.count
    modifies list`idx
    ensures var r := Grammar(list.tokens, old(list.idx));
            ret == r.entries && list.idx == r.last
  {
    ghost var target := Grammar(list.tokens, list.idx);
    ret := [];
    var expr := EMPTY;
    var state := 0;
    while list.idx < list.count
      invariant 0 <= list.idx <= list.count
      invariant Loop(list.tokens, list.idx, state, expr, ret) == target
      decreases list.count - list.idx
    {
      var token := list.tokens[list.idx];
      if token.kind == Delimiter {
        break;
      }
      if token.kind == Whitespace || token.kind == Comment {
        list.idx := list.idx + 1;
        continue;
      }
      if token.kind == Keyword {
        break;
      }
      if token.kind == Operator {
        if token.value == "," {
          ret := ret + [expr];
          expr := EMPTY;
          state := 0;
          list.idx := list.idx + 1;
          continue;
        } else if token.value == "=" {
          state := 1;
        }
      }
      expr := expr.(tokens := expr.tokens + [token]);
      if state == 0 {
        expr := expr.(column := expr.column + token.value);
      } else {
        expr := expr.(value := token.value);
      }
      list.idx := list.idx + 1;
    }
    assert Finish(list.idx, expr, ret) == target;
    if expr.tokens != [] {
      ret := ret + [expr];
    }
    list.idx := list.idx - 1;
  }
}
