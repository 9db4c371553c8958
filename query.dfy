/**
 * Statement utilities: the flags of a parsed statement, the type of a clause,
 * the text of the statement before, in or after a clause, and a clause
 * replaced by new text.
 */
module Query {
  import opened Wrappers
  import opened Php
  import opened Tokens
  import opened Delegates
  import DeleteStatement
  import SelectStatement

  // ---------------------------------------------------------------------------
  // getClauseType
  // ---------------------------------------------------------------------------

  /** The first index at or after `i` that is not a ctype_space character. */
  function SkipSpaces(s: string, i: int): (j: int)
    requires 0 <= i <= |s|
    ensures i <= j <= |s|
    ensures forall k :: i <= k < j ==> IsSpace(s[k])
    ensures j < |s| ==> !IsSpace(s[j])
    decreases |s| - i
  {
    if i == |s| || !IsSpace(s[i]) then i else SkipSpaces(s, i + 1)
  }

  /** The end of the run of alphanumeric characters that starts at `i`. */
  function AlnumEnd(s: string, i: int): (j: int)
    requires 0 <= i <= |s|
    ensures i <= j <= |s|
    ensures forall k :: i <= k < j ==> IsAlnum(s[k])
    ensures j < |s| ==> !IsAlnum(s[j])
    decreases |s| - i
  {
    if i == |s| || !IsAlnum(s[i]) then i else AlnumEnd(s, i + 1)
  }

  /** The type of a clause: its leading run of alphanumerics, after any leading whitespace. */
  function ClauseType(s: string): string
  {
    var start := SkipSpaces(s, 0);
    s[start..AlnumEnd(s, start)]
  }

  /** `t` sits at `start` in `s`, after nothing but whitespace, and cannot be extended. */
  predicate LeadingWordAt(s: string, start: int, t: string)
  {
    0 <= start && start + |t| <= |s| &&
    (forall k :: 0 <= k < start ==> IsSpace(s[k])) &&
    (start < |s| ==> !IsSpace(s[start])) &&
    s[start..start + |t|] == t &&
    (start + |t| < |s| ==> !IsAlnum(s[start + |t|]))
  }

  /**
   * ClauseType is exactly the maximal alphanumeric run after the leading
   * whitespace: what precedes it is whitespace, all of it is alphanumeric,
   * and the character after it (if any) is not.
   */
  lemma ClauseTypeIsLeadingWord(s: string)
    ensures forall k :: 0 <= k < |ClauseType(s)| ==> IsAlnum(ClauseType(s)[k])
    ensures exists start :: LeadingWordAt(s, start, ClauseType(s))
  {
    var start := SkipSpaces(s, 0);
    assert s[start..start + |ClauseType(s)|] == ClauseType(s);
    assert LeadingWordAt(s, start, ClauseType(s));
  }

  /** A clause type never contains a space, so the two-word key "ORDER BY" is never one. */
  lemma ClauseTypeIsOneWord(s: string)
    ensures ' ' !in ClauseType(s)
    ensures ClauseType(s) != "ORDER BY"
  {
    var t := ClauseType(s);
    var start := SkipSpaces(s, 0);
    assert forall k :: 0 <= k < |t| ==> t[k] == s[start + k];
    assert "ORDER BY"[5] == ' ';
  }

  /** The worked example: "ORDER BY x" has type "ORDER". */
  lemma ClauseTypeOfOrderBy()
    ensures ClauseType("ORDER BY x") == "ORDER"
  {
    assert SkipSpaces("ORDER BY x", 0) == 0;
    assert AlnumEnd("ORDER BY x", 5) == 5;
    assert AlnumEnd("ORDER BY x", 0) == 5;
  }

  /** Query::getClauseType with the whitespace test written on the empty string. */
  method GetClauseType(clause: string) returns (t: string)
    ensures t == ClauseType(clause)
  {
    ghost var start := SkipSpaces(clause, 0);
    ghost var end := AlnumEnd(clause, start);
    t := "";
    var i := 0;
    while i < |clause|
      invariant 0 <= i <= |clause|
      invariant i <= start ==> t == "" && forall k :: 0 <= k < i ==> IsSpace(clause[k])
      invariant i > start ==> i <= end && t == clause[start..i]
      decreases |clause| - i
    {
      if t == "" && IsSpace(clause[i]) {
        i := i + 1;
        continue;
      }
      if !IsAlnum(clause[i]) {
        break;
      }
      t := t + [clause[i]];
      i := i + 1;
    }
  }

  /**
   * getClauseType as written: whitespace is skipped while PHP's empty() holds
   * of the type gathered so far, and empty() also holds of "0".
   */
  function ScanTypeAsWritten(s: string, i: int, acc: string): string
    requires 0 <= i <= |s|
    decreases |s| - i
  {
    if i == |s| then acc
    else if PhpEmpty(acc) && IsSpace(s[i]) then ScanTypeAsWritten(s, i + 1, acc)
    else if !IsAlnum(s[i]) then acc
    else ScanTypeAsWritten(s, i + 1, acc + [s[i]])
  }

  function ClauseTypeAsWritten(s: string): string
  {
    ScanTypeAsWritten(s, 0, "")
  }

  /** The as-written scan joins "0" to the next word across whitespace. */
  lemma ClauseTypeAsWrittenJoinsZero()
    ensures ClauseTypeAsWritten("0 1") == "01"
    ensures ClauseType("0 1") == "0"
  {
    assert ScanTypeAsWritten("0 1", 0, "") == ScanTypeAsWritten("0 1", 1, "0");
    assert ScanTypeAsWritten("0 1", 1, "0") == ScanTypeAsWritten("0 1", 2, "0");
    assert ScanTypeAsWritten("0 1", 2, "0") == ScanTypeAsWritten("0 1", 3, "01");
    assert SkipSpaces("0 1", 0) == 0;
    assert AlnumEnd("0 1", 1) == 1;
    assert AlnumEnd("0 1", 0) == 1;
  }

  lemma {:induction false} LeadingSpacesAsWritten(s: string, i: int)
    requires 0 <= i <= SkipSpaces(s, 0)
    ensures ScanTypeAsWritten(s, i, "") == ScanTypeAsWritten(s, SkipSpaces(s, 0), "")
    decreases |s| - i
  {
    if i < SkipSpaces(s, 0) {
      LeadingSpacesAsWritten(s, i + 1);
    }
  }

  lemma {:induction false} WordAsWritten(s: string, start: int, i: int, acc: string)
    requires 0 <= start < |s|
    requires start < i <= AlnumEnd(s, start)
    requires acc == s[start..i]
    requires i < AlnumEnd(s, start) || acc != "0"
    ensures ScanTypeAsWritten(s, i, acc) == s[start..AlnumEnd(s, start)]
    decreases |s| - i
  {
    var end := AlnumEnd(s, start);
    if i < |s| && i < end {
      assert IsAlnum(s[i]) && !IsSpace(s[i]);
      assert acc + [s[i]] == s[start..i + 1];
      WordAsWritten(s, start, i + 1, acc + [s[i]]);
    }
  }

  /** The as-written scan and ClauseType differ only when the clause type is "0". */
  lemma ClauseTypeAsWrittenAgrees(s: string)
    requires ClauseType(s) != "0"
    ensures ClauseTypeAsWritten(s) == ClauseType(s)
  {
    var start := SkipSpaces(s, 0);
    LeadingSpacesAsWritten(s, 0);
    if start < |s| && IsAlnum(s[start]) {
      assert "" + [s[start]] == [s[start]] == s[start..start + 1];
      assert ScanTypeAsWritten(s, start, "") == ScanTypeAsWritten(s, start + 1, [s[start]]);
      WordAsWritten(s, start, start + 1, [s[start]]);
    }
  }

  // ---------------------------------------------------------------------------
  // getClause
  // ---------------------------------------------------------------------------

  /** The scanner's running state: the current section index and the bracket depth. */
  datatype Scan = Scan(curr: int, brackets: int)

  /** `(` opens a bracket, `)` closes one. */
  function Depth(brackets: int, t: Token): int
  {
    if IsOperator(t, "(") then brackets + 1
    else if IsOperator(t, ")") then brackets - 1
    else brackets
  }

  /** The token starts a section: a keyword of the table, at depth 0, no earlier than the current one. */
  predicate Enters(sections: map<string, int>, s: Scan, t: Token)
  {
    Depth(s.brackets, t) == 0 && t.kind == Keyword && t.value in sections && sections[t.value] >= s.curr
  }

  function Next(sections: map<string, int>, s: Scan, t: Token): Scan
  {
    Scan(if Enters(sections, s, t) then sections[t.value] else s.curr, Depth(s.brackets, t))
  }

  /** The state after the first `n` tokens. */
  function ScanTo(ts: seq<Token>, n: int, sections: map<string, int>): Scan
    requires 0 <= n <= |ts|
  {
    if n == 0 then Scan(0, 0) else Next(sections, ScanTo(ts, n - 1, sections), ts[n - 1])
  }

  /** Which part is asked for: -1 before the clause, 0 the clause, 1 after it. */
  predicate Selected(kind: int, curr: int, target: int)
  {
    (kind == -1 && curr < target) || (kind == 0 && curr == target) || (kind == 1 && curr > target)
  }

  /** Whether the token read in state `s` lands in the output. */
  predicate Emits(sections: map<string, int>, s: Scan, t: Token, target: int, kind: int, skipFirst: bool)
  {
    var s' := Next(sections, s, t);
    !(skipFirst && Enters(sections, s, t) && s'.curr == target) && Selected(kind, s'.curr, target)
  }

  /** The untrimmed output after the first `n` tokens. */
  function Emit(ts: seq<Token>, n: int, sections: map<string, int>, target: int, kind: int,
                skipFirst: bool): string
    requires 0 <= n <= |ts|
  {
    if n == 0 then ""
    else Emit(ts, n - 1, sections, target, kind, skipFirst)
         + (if Emits(sections, ScanTo(ts, n - 1, sections), ts[n - 1], target, kind, skipFirst)
            then ts[n - 1].token else "")
  }

  /** The raw text of the first `n` tokens. */
  function Raw(ts: seq<Token>, n: int): string
    requires 0 <= n <= |ts|
  {
    if n == 0 then "" else Raw(ts, n - 1) + ts[n - 1].token
  }

  /** The index of the first delimiter at or after `k`, or |ts|. */
  function DelimiterFrom(ts: seq<Token>, k: int): (d: int)
    requires 0 <= k <= |ts|
    ensures k <= d <= |ts|
    ensures forall j :: k <= j < d ==> ts[j].kind != Delimiter
    ensures d < |ts| ==> ts[d].kind == Delimiter
    decreases |ts| - k
  {
    if k == |ts| || ts[k].kind == Delimiter then k else DelimiterFrom(ts, k + 1)
  }

  /** The index of the first delimiter, or |ts|. */
  function FirstDelimiter(ts: seq<Token>): (d: int)
    ensures 0 <= d <= |ts|
    ensures forall k :: 0 <= k < d ==> ts[k].kind != Delimiter
    ensures d < |ts| ==> ts[d].kind == Delimiter
  {
    DelimiterFrom(ts, 0)
  }

  /** The first delimiter is the one index before which there is none and at which there is one (or the end). */
  lemma FirstDelimiterAt(ts: seq<Token>, d: int)
    requires 0 <= d <= |ts|
    requires forall k :: 0 <= k < d ==> ts[k].kind != Delimiter
    requires d < |ts| ==> ts[d].kind == Delimiter
    ensures FirstDelimiter(ts) == d
  {
  }

  /** The tokens `first` to `last`, both included. */
  function Range(tokens: seq<Token>, first: int, last: int): (ts: seq<Token>)
    requires 0 <= first && last < |tokens|
    ensures |ts| == if first <= last then last - first + 1 else 0
    ensures forall k :: 0 <= k < |ts| ==> ts[k] == tokens[first + k]
  {
    if first <= last then tokens[first..last + 1] else []
  }

  /** One more token read: the scan takes one step and the output grows by the token or by nothing. */
  lemma EmitNext(ts: seq<Token>, n: int, sections: map<string, int>, target: int, kind: int, skipFirst: bool)
    requires 0 <= n < |ts|
    ensures ScanTo(ts, n + 1, sections) == Next(sections, ScanTo(ts, n, sections), ts[n])
    ensures Emit(ts, n + 1, sections, target, kind, skipFirst)
         == Emit(ts, n, sections, target, kind, skipFirst)
            + (if Emits(sections, ScanTo(ts, n, sections), ts[n], target, kind, skipFirst) then ts[n].token else "")
  {
  }

  /** The untrimmed text getClause gathers, up to the first delimiter. */
  function Part(tokens: seq<Token>, first: int, last: int, sections: map<string, int>,
                clause: string, kind: int, skipFirst: bool): string
    requires 0 <= first && last < |tokens|
    requires ClauseType(clause) in sections
  {
    var ts := Range(tokens, first, last);
    Emit(ts, FirstDelimiter(ts), sections, sections[ClauseType(clause)], kind, skipFirst)
  }

  /** The text getClause returns. */
  function ClauseText(tokens: seq<Token>, first: int, last: int, sections: map<string, int>,
                      clause: string, kind: int, skipFirst: bool): string
    requires 0 <= first && last < |tokens|
    requires ClauseType(clause) in sections
  {
    Trim(Part(tokens, first, last, sections, clause, kind, skipFirst))
  }

  /**
   * Query::getClause over the statement's tokens `first`..`last`, with the
   * statement's section table passed as `sections`.
   */
  method GetClause(list: TokensList, first: int, last: int, sections: map<string, int>, clause: string,
                   kind: int, skipFirst: bool) returns (r: string)
    requires list.Valid() && 0 <= first && last < list.count
    requires ClauseType(clause) in sections
    ensures r == ClauseText(list.tokens, first, last, sections, clause, kind, skipFirst)
  {
    ghost var ts := Range(list.tokens, first, last);
    var currIdx := 0;
    var brackets := 0;
    var ret := "";
    var t := GetClauseType(clause);
    var clauseIdx := sections[t];
    var i := first;
    while i <= last
      invariant first <= i <= first + |ts|
      invariant forall k :: 0 <= k < i - first ==> ts[k].kind != Delimiter
      invariant Scan(currIdx, brackets) == ScanTo(ts, i - first, sections)
      invariant ret == Emit(ts, i - first, sections, clauseIdx, kind, skipFirst)
      decreases last - i
    {
      var token := list.tokens[i];
      assert token == ts[i - first];
      ghost var s := Scan(currIdx, brackets);
      if token.kind == Delimiter {
        break;
      }
      EmitNext(ts, i - first, sections, clauseIdx, kind, skipFirst);
      if token.kind == Operator {
        if token.value == "(" {
          brackets := brackets + 1;
        } else if token.value == ")" {
          brackets := brackets - 1;
        }
      }
      assert brackets == Depth(s.brackets, token);
      if brackets == 0 && token.kind == Keyword && token.value in sections && sections[token.value] >= currIdx {
        currIdx := sections[token.value];
        if skipFirst && currIdx == clauseIdx {
          assert !Emits(sections, s, token, clauseIdx, kind, skipFirst);
          assert Scan(currIdx, brackets) == ScanTo(ts, i - first + 1, sections);
          assert ret == Emit(ts, i - first + 1, sections, clauseIdx, kind, skipFirst);
          i := i + 1;
          continue;
        }
      }
      assert Scan(currIdx, brackets) == Next(sections, s, token);
      assert Emits(sections, s, token, clauseIdx, kind, skipFirst) <==> Selected(kind, currIdx, clauseIdx);
      if (kind == -1 && currIdx < clauseIdx) || (kind == 0 && currIdx == clauseIdx)
         || (kind == 1 && currIdx > clauseIdx) {
        ret := ret + token.token;
      }
      assert Scan(currIdx, brackets) == ScanTo(ts, i - first + 1, sections);
      assert ret == Emit(ts, i - first + 1, sections, clauseIdx, kind, skipFirst);
      i := i + 1;
    }
    FirstDelimiterAt(ts, i - first);
    assert ret == Part(list.tokens, first, last, sections, clause, kind, skipFirst);
    r := Trim(ret);
  }

  /** The section index starts at 0 and never decreases along the scan. */
  lemma {:induction false} SectionsMonotone(ts: seq<Token>, m: int, n: int, sections: map<string, int>)
    requires 0 <= m <= n <= |ts|
    ensures 0 <= ScanTo(ts, m, sections).curr <= ScanTo(ts, n, sections).curr
    decreases n
  {
    if n > 0 {
      if m < n {
        SectionsMonotone(ts, m, n - 1, sections);
      } else {
        SectionsMonotone(ts, 0, n - 1, sections);
      }
    }
  }

  /**
   * The section index moves only on a section keyword met at bracket depth 0,
   * and then to that keyword's section.
   */
  lemma SectionChangesOnlyAtDepthZero(ts: seq<Token>, n: int, sections: map<string, int>)
    requires 0 <= n < |ts|
    ensures var before := ScanTo(ts, n, sections);
            var after := ScanTo(ts, n + 1, sections);
            after.curr != before.curr ==>
              ts[n].kind == Keyword && ts[n].value in sections && after.brackets == 0 &&
              after.curr == sections[ts[n].value] && after.curr > before.curr
  {
  }

  /** The number of tokens of [0, n) that are the operator `v`. */
  function CountOperator(ts: seq<Token>, n: int, v: string): nat
    requires 0 <= n <= |ts|
  {
    if n == 0 then 0 else CountOperator(ts, n - 1, v) + (if IsOperator(ts[n - 1], v) then 1 else 0)
  }

  /** The bracket depth is the number of `(` minus the number of `)` so far. */
  lemma {:induction false} DepthCountsBrackets(ts: seq<Token>, n: int, sections: map<string, int>)
    requires 0 <= n <= |ts|
    ensures ScanTo(ts, n, sections).brackets == CountOperator(ts, n, "(") - CountOperator(ts, n, ")")
  {
    if n > 0 {
      DepthCountsBrackets(ts, n - 1, sections);
    }
  }

  lemma {:induction false} ScanPrefix(ts: seq<Token>, rest: seq<Token>, n: int, sections: map<string, int>)
    requires 0 <= n <= |ts|
    ensures ScanTo(ts + rest, n, sections) == ScanTo(ts, n, sections)
  {
    if n > 0 {
      ScanPrefix(ts, rest, n - 1, sections);
      assert (ts + rest)[n - 1] == ts[n - 1];
    }
  }

  lemma {:induction false} EmitPrefix(ts: seq<Token>, rest: seq<Token>, n: int, sections: map<string, int>,
                                      target: int, kind: int, skipFirst: bool)
    requires 0 <= n <= |ts|
    ensures Emit(ts + rest, n, sections, target, kind, skipFirst) == Emit(ts, n, sections, target, kind, skipFirst)
  {
    if n > 0 {
      EmitPrefix(ts, rest, n - 1, sections, target, kind, skipFirst);
      ScanPrefix(ts, rest, n - 1, sections);
      assert (ts + rest)[n - 1] == ts[n - 1];
    }
  }

  /** Once a delimiter has been met, nothing that follows it reaches the output. */
  lemma DelimiterEndsScan(ts: seq<Token>, rest: seq<Token>, sections: map<string, int>, target: int,
                          kind: int, skipFirst: bool)
    requires FirstDelimiter(ts) < |ts|
    ensures FirstDelimiter(ts + rest) == FirstDelimiter(ts)
    ensures Emit(ts + rest, FirstDelimiter(ts + rest), sections, target, kind, skipFirst)
         == Emit(ts, FirstDelimiter(ts), sections, target, kind, skipFirst)
  {
    var d := FirstDelimiter(ts);
    assert (ts + rest)[d] == ts[d];
    assert forall k :: 0 <= k < d ==> (ts + rest)[k] == ts[k];
    EmitPrefix(ts, rest, d, sections, target, kind, skipFirst);
  }

  /** With skipFirst, a depth-0 keyword that opens the target section is left out. */
  lemma SkipFirstOmitsSectionKeyword(sections: map<string, int>, s: Scan, t: Token, target: int, kind: int)
    requires Enters(sections, s, t) && sections[t.value] == target
    ensures !Emits(sections, s, t, target, kind, true)
    ensures kind == 0 ==> Emits(sections, s, t, target, kind, false)
  {
  }

  /** skipFirst can only change the clause itself, never the text before or after it. */
  lemma {:induction false} SkipFirstOnlyAffectsClause(ts: seq<Token>, n: int, sections: map<string, int>,
                                                      target: int, kind: int)
    requires 0 <= n <= |ts|
    requires kind != 0
    ensures Emit(ts, n, sections, target, kind, true) == Emit(ts, n, sections, target, kind, false)
  {
    if n > 0 {
      SkipFirstOnlyAffectsClause(ts, n - 1, sections, target, kind);
    }
  }

  /** Without skipFirst, a token lands in a part exactly when the section it leaves the scan in is selected. */
  lemma EmitStep(ts: seq<Token>, n: int, sections: map<string, int>, target: int, kind: int)
    requires 0 < n <= |ts|
    ensures Emit(ts, n, sections, target, kind, false)
         == Emit(ts, n - 1, sections, target, kind, false)
            + (if Selected(kind, ScanTo(ts, n, sections).curr, target) then ts[n - 1].token else "")
  {
  }

  /** One token added to the three parts, given that sections never go back. */
  lemma PartsStep(b: string, e: string, a: string, x: string, prev: int, c: int, target: int)
    requires prev <= c
    requires prev < target ==> e == "" && a == ""
    requires prev <= target ==> a == ""
    ensures (b + (if Selected(-1, c, target) then x else "")) + (e + (if Selected(0, c, target) then x else ""))
            + (a + (if Selected(1, c, target) then x else "")) == b + e + a + x
    ensures c < target ==> e + (if Selected(0, c, target) then x else "") == ""
                           && a + (if Selected(1, c, target) then x else "") == ""
    ensures c <= target ==> a + (if Selected(1, c, target) then x else "") == ""
  {
    if c < target {
      assert (b + x) + ("" + "") + ("" + "") == b + "" + "" + x;
    } else if c == target {
      assert (b + "") + (e + x) + ("" + "") == b + e + "" + x;
    } else {
      assert (b + "") + (e + "") + (a + x) == b + e + a + x;
    }
  }

  /**
   * Without skipFirst the three parts split the text: before + clause + after
   * is exactly the raw text scanned, because sections never go back.
   */
  lemma {:induction false} PartsPartitionText(ts: seq<Token>, n: int, sections: map<string, int>, target: int)
    requires 0 <= n <= |ts|
    ensures Emit(ts, n, sections, target, -1, false) + Emit(ts, n, sections, target, 0, false)
            + Emit(ts, n, sections, target, 1, false) == Raw(ts, n)
    ensures ScanTo(ts, n, sections).curr < target ==>
              Emit(ts, n, sections, target, 0, false) == "" && Emit(ts, n, sections, target, 1, false) == ""
    ensures ScanTo(ts, n, sections).curr <= target ==> Emit(ts, n, sections, target, 1, false) == ""
  {
    if n == 0 {
      assert Raw(ts, 0) == "" && Emit(ts, 0, sections, target, 0, false) == "";
    } else {
      PartsPartitionText(ts, n - 1, sections, target);
      PartitionStep(ts, n, sections, target);
    }
  }

  /** The inductive step of PartsPartitionText: the partition of n - 1 tokens extends to n. */
  lemma PartitionStep(ts: seq<Token>, n: int, sections: map<string, int>, target: int)
    requires 0 < n <= |ts|
    requires Emit(ts, n - 1, sections, target, -1, false) + Emit(ts, n - 1, sections, target, 0, false)
             + Emit(ts, n - 1, sections, target, 1, false) == Raw(ts, n - 1)
    requires ScanTo(ts, n - 1, sections).curr < target ==>
               Emit(ts, n - 1, sections, target, 0, false) == "" && Emit(ts, n - 1, sections, target, 1, false) == ""
    requires ScanTo(ts, n - 1, sections).curr <= target ==> Emit(ts, n - 1, sections, target, 1, false) == ""
    ensures Emit(ts, n, sections, target, -1, false) + Emit(ts, n, sections, target, 0, false)
            + Emit(ts, n, sections, target, 1, false) == Raw(ts, n)
    ensures ScanTo(ts, n, sections).curr < target ==>
              Emit(ts, n, sections, target, 0, false) == "" && Emit(ts, n, sections, target, 1, false) == ""
    ensures ScanTo(ts, n, sections).curr <= target ==> Emit(ts, n, sections, target, 1, false) == ""
  {
    SectionsMonotone(ts, n - 1, n, sections);
    EmitStep(ts, n, sections, target, -1);
    EmitStep(ts, n, sections, target, 0);
    EmitStep(ts, n, sections, target, 1);
    assert Raw(ts, n) == Raw(ts, n - 1) + ts[n - 1].token;
    PartsStep(Emit(ts, n - 1, sections, target, -1, false), Emit(ts, n - 1, sections, target, 0, false),
              Emit(ts, n - 1, sections, target, 1, false), ts[n - 1].token,
              ScanTo(ts, n - 1, sections).curr, ScanTo(ts, n, sections).curr, target);
  }

  // ---------------------------------------------------------------------------
  // replaceClause
  // ---------------------------------------------------------------------------

  /** Query::replaceClause: the text before the clause, the new clause, the text after it. */
  function ReplaceClause(tokens: seq<Token>, first: int, last: int, sections: map<string, int>,
                         clause: string, onlyType: bool): string
    requires 0 <= first && last < |tokens|
    requires ClauseType(clause) in sections
  {
    if onlyType then
      ClauseText(tokens, first, last, sections, clause, -1, false) + " " + clause + " "
      + ClauseText(tokens, first, last, sections, clause, 0, true) + " "
      + ClauseText(tokens, first, last, sections, clause, 1, false)
    else
      ClauseText(tokens, first, last, sections, clause, -1, false) + " " + clause + " "
      + ClauseText(tokens, first, last, sections, clause, 1, false)
  }

  /** The concatenations replaceClause builds, regrouped. */
  lemma SpliceText(b: string, c: string, x: string, a: string)
    ensures b + " " + c + " " + x + " " + a == b + " " + c + " " + (x + " ") + a
    ensures b + " " + c + " " + a == b + " " + c + " " + "" + a
  {
  }

  /**
   * replaceClause splices: the statement text up to its delimiter splits into
   * before + old clause + after, and the result keeps before and after
   * (trimmed) around the new clause, dropping the old one; with onlyType the
   * old clause's body, without its section keywords, follows the new clause.
   */
  lemma ReplaceClauseSplices(tokens: seq<Token>, first: int, last: int, sections: map<string, int>,
                             clause: string, onlyType: bool)
    requires 0 <= first && last < |tokens|
    requires ClauseType(clause) in sections
    ensures Part(tokens, first, last, sections, clause, -1, false)
            + Part(tokens, first, last, sections, clause, 0, false)
            + Part(tokens, first, last, sections, clause, 1, false)
         == Raw(Range(tokens, first, last), FirstDelimiter(Range(tokens, first, last)))
    ensures ReplaceClause(tokens, first, last, sections, clause, onlyType)
         == Trim(Part(tokens, first, last, sections, clause, -1, false)) + " " + clause + " "
            + (if onlyType then Trim(Part(tokens, first, last, sections, clause, 0, true)) + " " else "")
            + Trim(Part(tokens, first, last, sections, clause, 1, false))
  {
    var ts := Range(tokens, first, last);
    PartsPartitionText(ts, FirstDelimiter(ts), sections, sections[ClauseType(clause)]);
    SpliceText(ClauseText(tokens, first, last, sections, clause, -1, false), clause,
               ClauseText(tokens, first, last, sections, clause, 0, true),
               ClauseText(tokens, first, last, sections, clause, 1, false));
  }

  // ---------------------------------------------------------------------------
  // The DELETE section table in getClause
  // ---------------------------------------------------------------------------

  function Kw(v: string): Token
  {
    Token(v, v, Keyword, true, false)
  }

  function Word(v: string): Token
  {
    Token(v, v, Other, false, false)
  }

  const SPACE: Token := Token(" ", " ", Whitespace, false, false)

  /** The tokens of `DELETE FROM t WHERE x`. */
  const DELETE_WHERE: seq<Token> :=
    [Kw("DELETE"), SPACE, Kw("FROM"), SPACE, Word("t"), SPACE, Kw("WHERE"), SPACE, Word("x")]

  /** The scan of DELETE_WHERE: DELETE opens section 2, FROM section 3, and WHERE stays in 3. */
  lemma DeleteWhereScan()
    ensures DeleteStatement.Sections()["WHERE"] == 3
    ensures ScanTo(DELETE_WHERE, 1, DeleteStatement.Sections()) == Scan(2, 0)
    ensures ScanTo(DELETE_WHERE, 2, DeleteStatement.Sections()) == Scan(2, 0)
    ensures ScanTo(DELETE_WHERE, 3, DeleteStatement.Sections()) == Scan(3, 0)
    ensures ScanTo(DELETE_WHERE, 4, DeleteStatement.Sections()) == Scan(3, 0)
    ensures ScanTo(DELETE_WHERE, 5, DeleteStatement.Sections()) == Scan(3, 0)
    ensures ScanTo(DELETE_WHERE, 6, DeleteStatement.Sections()) == Scan(3, 0)
    ensures ScanTo(DELETE_WHERE, 7, DeleteStatement.Sections()) == Scan(3, 0)
    ensures ScanTo(DELETE_WHERE, 8, DeleteStatement.Sections()) == Scan(3, 0)
  {
    DeleteStatement.SectionTiers();
    var m := DeleteStatement.Sections();
    assert ScanTo(DELETE_WHERE, 1, m) == Scan(2, 0);
    assert ScanTo(DELETE_WHERE, 2, m) == Scan(2, 0);
    assert ScanTo(DELETE_WHERE, 3, m) == Scan(3, 0);
    assert ScanTo(DELETE_WHERE, 4, m) == Scan(3, 0);
    assert ScanTo(DELETE_WHERE, 5, m) == Scan(3, 0);
    assert ScanTo(DELETE_WHERE, 6, m) == Scan(3, 0);
    assert ScanTo(DELETE_WHERE, 7, m) == Scan(3, 0);
  }

  /** The WHERE clause of DELETE_WHERE, with its section keywords skipped, before trimming. */
  lemma DeleteWhereBody()
    ensures Emit(DELETE_WHERE, 9, DeleteStatement.Sections(), 3, 0, true) == " t  x"
  {
    DeleteWhereScan();
    var ts, m := DELETE_WHERE, DeleteStatement.Sections();
    assert Emit(ts, 1, m, 3, 0, true) == "";
    assert Emit(ts, 2, m, 3, 0, true) == "";
    assert Emit(ts, 3, m, 3, 0, true) == "";
    assert Emit(ts, 4, m, 3, 0, true) == " ";
    assert Emit(ts, 5, m, 3, 0, true) == " t";
    assert Emit(ts, 6, m, 3, 0, true) == " t ";
    assert Emit(ts, 7, m, 3, 0, true) == " t ";
    assert Emit(ts, 8, m, 3, 0, true) == " t  ";
  }

  /** The text of DELETE_WHERE before its WHERE clause, before trimming. */
  lemma DeleteWhereBefore()
    ensures Emit(DELETE_WHERE, 9, DeleteStatement.Sections(), 3, -1, false) == "DELETE "
  {
    DeleteWhereScan();
    var ts, m := DELETE_WHERE, DeleteStatement.Sections();
    assert Emit(ts, 1, m, 3, -1, false) == "DELETE";
    assert Emit(ts, 2, m, 3, -1, false) == "DELETE ";
    assert Emit(ts, 3, m, 3, -1, false) == "DELETE ";
    assert Emit(ts, 4, m, 3, -1, false) == "DELETE ";
    assert Emit(ts, 5, m, 3, -1, false) == "DELETE ";
    assert Emit(ts, 6, m, 3, -1, false) == "DELETE ";
    assert Emit(ts, 7, m, 3, -1, false) == "DELETE ";
    assert Emit(ts, 8, m, 3, -1, false) == "DELETE ";
  }

  lemma ClauseTypeOfWhere()
    ensures ClauseType("WHERE x") == "WHERE"
  {
    assert SkipSpaces("WHERE x", 0) == 0;
    assert AlnumEnd("WHERE x", 5) == 5;
    assert AlnumEnd("WHERE x", 0) == 5;
  }

  /**
   * With the DELETE table, FROM and WHERE are one tier: asking for the WHERE
   * clause of `DELETE FROM t WHERE x` gathers the bodies of both (the FROM
   * and WHERE keywords themselves skipped), and the text before it is the
   * verb alone; getClause then trims both.
   */
  lemma DeleteWhereSpansTier()
    ensures ClauseType("WHERE x") in DeleteStatement.Sections()
    ensures Part(DELETE_WHERE, 0, 8, DeleteStatement.Sections(), "WHERE x", 0, true) == " t  x"
    ensures Part(DELETE_WHERE, 0, 8, DeleteStatement.Sections(), "WHERE x", -1, false) == "DELETE "
  {
    DeleteWhereScan();
    DeleteWhereBody();
    DeleteWhereBefore();
    var ts := DELETE_WHERE;
    ClauseTypeOfWhere();
    assert Range(ts, 0, 8) == ts;
    FirstDelimiterAt(ts, 9);
  }

  // ---------------------------------------------------------------------------
  // getFlags
  // ---------------------------------------------------------------------------

  /** Functions that set `is_func`. */
  const FUNCTIONS: seq<string> := ["SUM", "AVG", "STD", "STDDEV", "MIN", "MAX", "BIT_OR", "BIT_AND"]

  /** The flags getFlags knows; Name gives each one's key in the result. */
  datatype Flag =
    | Distinct | DropDatabase | Group | Having | IsAffected | IsAnalyse | IsCount | IsDelete
    | IsExplain | IsExport | IsFunc | IsGroup | IsInsert | IsMaint | IsProcedure | IsReplace
    | IsSelect | IsShow | IsSubquery | Join | Limit | Offset | Order | QueryType | Reload
    | SelectFrom | Union

  function Name(f: Flag): string
  {
    match f
    case Distinct => "distinct"
    case DropDatabase => "drop_database"
    case Group => "group"
    case Having => "having"
    case IsAffected => "is_affected"
    case IsAnalyse => "is_analyse"
    case IsCount => "is_count"
    case IsDelete => "is_delete"
    case IsExplain => "is_explain"
    case IsExport => "is_export"
    case IsFunc => "is_func"
    case IsGroup => "is_group"
    case IsInsert => "is_insert"
    case IsMaint => "is_maint"
    case IsProcedure => "is_procedure"
    case IsReplace => "is_replace"
    case IsSelect => "is_select"
    case IsShow => "is_show"
    case IsSubquery => "is_subquery"
    case Join => "join"
    case Limit => "limit"
    case Offset => "offset"
    case Order => "order"
    case QueryType => "querytype"
    case Reload => "reload"
    case SelectFrom => "select_from"
    case Union => "union"
  }

  /** Every flag, the keys of the result when all values are asked for. */
  const ALL_FLAGS: set<Flag> := {
    Distinct, DropDatabase, Group, Having, IsAffected, IsAnalyse, IsCount, IsDelete,
    IsExplain, IsExport, IsFunc, IsGroup, IsInsert, IsMaint, IsProcedure, IsReplace,
    IsSelect, IsShow, IsSubquery, Join, Limit, Offset, Order, QueryType, Reload,
    SelectFrom, Union}

  /** A flag's value: a boolean, or the query type's name. */
  datatype FlagValue = Bool(b: bool) | Text(s: string)

  /**
   * The statement kinds getFlags tells apart, with the fields it reads; any
   * other kind of statement is Unlisted.
   */
  datatype Statement =
    | Alter | Create | Analyze | Check | Checksum | Optimize | Repair | Call
    | Delete(delete: DeleteStatement.DeleteStatement)
    | Drop(dropOptions: OptionsFragment)
    | Explain | Insert | Replace
    | Select(select: SelectStatement.SelectStatement)
    | Show
    | Update(updateOrder: seq<string>, updateLimit: Option<string>)
    | Unlisted

  /** The query type getFlags reports for each listed kind. */
  function TypeName(stmt: Statement): string
  {
    match stmt
    case Alter => "ALTER"
    case Create => "CREATE"
    case Analyze => "ANALYZE"
    case Check => "CHECK"
    case Checksum => "CHECKSUM"
    case Optimize => "OPTIMIZE"
    case Repair => "REPAIR"
    case Call => "CALL"
    case Delete(_) => "DELETE"
    case Drop(_) => "DROP"
    case Explain => "EXPLAIN"
    case Insert => "INSERT"
    case Replace => "REPLACE"
    case Select(_) => "SELECT"
    case Show => "SHOW"
    case Update(_, _) => "UPDATE"
    case Unlisted => ""
  }

  /** `{f}` when `cond` holds, nothing otherwise. */
  function If(cond: bool, f: Flag): set<Flag>
  {
    if cond then {f} else {}
  }

  predicate CountsRows(e: SelectStatement.SelectExpression)
  {
    !PhpEmpty(e.func) && e.func == "COUNT"
  }

  predicate CallsFunction(e: SelectStatement.SelectExpression)
  {
    !PhpEmpty(e.func) && e.func != "COUNT" && e.func in FUNCTIONS
  }

  /** Whether a SELECT raises flag `f`, limit and order aside: each flag has its own test. */
  predicate SelectRaises(s: SelectStatement.SelectStatement, f: Flag)
  {
    match f
    case QueryType => true
    case IsSelect => true
    case SelectFrom => s.from != []
    case Distinct => Has(s.options, "DISTINCT")
    case IsGroup => s.group != [] || s.having != []
    case IsExport => s.into == Some("OUTFILE")
    case IsCount => exists e :: e in s.expr && CountsRows(e)
    case IsFunc => exists e :: e in s.expr && CallsFunction(e)
    case IsSubquery => exists e :: e in s.expr && !PhpEmpty(e.subquery)
    case IsAnalyse => s.procedure == Some("ANALYSE")
    case Group => s.group != []
    case Having => s.having != []
    case Union => s.union != []
    case Join => s.join != []
    case _ => false
  }

  /** The flags a SELECT raises, apart from limit and order. */
  function SelectFlags(s: SelectStatement.SelectStatement): set<Flag>
  {
    set f: Flag | SelectRaises(s, f)
  }

  /** The flags raised by the statement's kind. */
  function KindFlags(stmt: Statement): set<Flag>
  {
    match stmt
    case Alter => {QueryType, Reload}
    case Create => {QueryType, Reload}
    case Analyze => {QueryType, IsMaint}
    case Check => {QueryType, IsMaint}
    case Checksum => {QueryType, IsMaint}
    case Optimize => {QueryType, IsMaint}
    case Repair => {QueryType, IsMaint}
    case Call => {QueryType, IsProcedure}
    case Delete(_) => {QueryType, IsDelete, IsAffected}
    case Drop(o) => {QueryType, Reload} + If(Has(o, "DATABASE") || Has(o, "SCHEMA"), DropDatabase)
    case Explain => {QueryType, IsExplain}
    case Insert => {QueryType, IsAffected, IsInsert}
    case Replace => {QueryType, IsAffected, IsReplace, IsInsert}
    case Select(s) => SelectFlags(s)
    case Show => {QueryType, IsShow}
    case Update(_, _) => {QueryType, IsAffected}
    case Unlisted => {}
  }

  /** The limit and order flags, read only from SELECT, UPDATE and DELETE. */
  function LimitOrderFlags(stmt: Statement): set<Flag>
  {
    match stmt
    case Select(s) => If(s.limit.Some?, Limit) + If(s.order != [], Order)
    case Update(order, limit) => If(limit.Some?, Limit) + If(order != [], Order)
    case Delete(d) => If(d.limit.Some?, Limit) + If(d.order != [], Order)
    case _ => {}
  }

  /** The flags set to true (querytype: to the type name) for a statement. */
  function Raised(stmt: Statement): set<Flag>
  {
    KindFlags(stmt) + LimitOrderFlags(stmt)
  }

  /**
   * Query::getFlags: the raised flags, with querytype carrying the type name;
   * when all values are asked for, every other flag is present as false.
   */
  function GetFlags(stmt: Statement, all: bool): map<Flag, FlagValue>
  {
    map f | f in (if all then ALL_FLAGS else Raised(stmt)) ::
      if f !in Raised(stmt) then Bool(false)
      else if f == QueryType then Text(TypeName(stmt))
      else Bool(true)
  }

  /** Flag names are distinct, so the enumeration loses nothing of the string keys. */
  lemma NamesDistinct()
    ensures forall f, g :: Name(f) == Name(g) ==> f == g
  {
  }

  /** Every flag is listed. */
  lemma FlagListed(g: Flag)
    ensures g in ALL_FLAGS
  {
  }

  /** The keys of getFlags' result and what each maps to. */
  lemma GetFlagsShape(stmt: Statement, all: bool)
    ensures GetFlags(stmt, all).Keys == (if all then ALL_FLAGS else Raised(stmt))
    ensures forall k :: k in GetFlags(stmt, all) && k in Raised(stmt) && k != QueryType ==>
              GetFlags(stmt, all)[k] == Bool(true)
    ensures forall k :: k in GetFlags(stmt, all) && k !in Raised(stmt) ==> GetFlags(stmt, all)[k] == Bool(false)
    ensures QueryType in Raised(stmt) ==> GetFlags(stmt, all)[QueryType] == Text(TypeName(stmt))
  {
    forall g | g in Raised(stmt) {
      FlagListed(g);
    }
  }


  /** DELETE is an affecting delete. */
  lemma DeleteFlags(d: DeleteStatement.DeleteStatement, all: bool)
    ensures var f := GetFlags(Delete(d), all);
            QueryType in f && f[QueryType] == Text("DELETE") &&
            IsDelete in f && f[IsDelete] == Bool(true) && IsAffected in f && f[IsAffected] == Bool(true)
  {
  }

  /** REPLACE is an affecting insert that replaces. */
  lemma ReplaceFlags(all: bool)
    ensures var f := GetFlags(Replace, all);
            QueryType in f && f[QueryType] == Text("REPLACE") &&
            IsAffected in f && f[IsAffected] == Bool(true) &&
            IsReplace in f && f[IsReplace] == Bool(true) && IsInsert in f && f[IsInsert] == Bool(true)
  {
  }

  /** DROP raises drop_database exactly when its options hold DATABASE or SCHEMA. */
  lemma DropDatabaseFlag(o: OptionsFragment, all: bool)
    ensures var f := GetFlags(Drop(o), all);
            QueryType in f && f[QueryType] == Text("DROP") && Reload in f && f[Reload] == Bool(true) &&
            ((DropDatabase in f && f[DropDatabase] == Bool(true)) <==> Has(o, "DATABASE") || Has(o, "SCHEMA"))
  {
  }

  /** An unlisted kind of statement raises nothing: all false, or no flag at all. */
  lemma UnlistedRaisesNothing(all: bool)
    ensures var f := GetFlags(Unlisted, all);
            f.Keys == (if all then ALL_FLAGS else {}) && forall k :: k in f ==> f[k] == Bool(false)
  {
  }

  /** Whether a SELECT raises `f` comes down to that flag's own test. */
  lemma SelectFlagsMember(s: SelectStatement.SelectStatement, f: Flag)
    ensures f in SelectFlags(s) <==> SelectRaises(s, f)
  {
    assert f in ALL_FLAGS;
  }

  /** limit and order are raised only by a SELECT, UPDATE or DELETE that has them. */
  lemma LimitOrderOnlyWhenPresent(stmt: Statement)
    ensures var f := GetFlags(stmt, false);
            (Limit in f <==>
               (stmt.Select? && stmt.select.limit.Some?) || (stmt.Update? && stmt.updateLimit.Some?) ||
               (stmt.Delete? && stmt.delete.limit.Some?)) &&
            (Order in f <==>
               (stmt.Select? && stmt.select.order != []) || (stmt.Update? && stmt.updateOrder != []) ||
               (stmt.Delete? && stmt.delete.order != []))
  {
    LimitOrderNotKind(stmt);
    FlagKey(stmt, false, Limit);
    FlagKey(stmt, false, Order);
  }

  /** No kind raises limit or order by itself. */
  lemma LimitOrderNotKind(stmt: Statement)
    ensures Limit !in KindFlags(stmt) && Order !in KindFlags(stmt)
  {
    if stmt.Select? {
      SelectFlagsMember(stmt.select, Limit);
      SelectFlagsMember(stmt.select, Order);
    }
  }

  /** No entry of FUNCTIONS is COUNT or a string PHP's empty() accepts. */
  lemma FunctionsAreNamed()
    ensures forall f :: f in FUNCTIONS ==> f != "COUNT" && !PhpEmpty(f)
  {
  }

  /** A flag is a key of the result exactly when it is raised, or when every flag is asked for. */
  lemma FlagKey(stmt: Statement, all: bool, g: Flag)
    ensures g in GetFlags(stmt, all) <==> g in (if all then ALL_FLAGS else Raised(stmt))
  {
  }

  /** The flags a SELECT raises: its own, plus limit and order when it has them. */
  lemma SelectRaised(s: SelectStatement.SelectStatement, g: Flag)
    ensures g in Raised(Select(s))
        <==> g in SelectFlags(s) || (g == Limit && s.limit.Some?) || (g == Order && s.order != [])
  {
  }

  /** Without all values, the keys of a SELECT's result are exactly its raised flags. */
  lemma SelectKeys(s: SelectStatement.SelectStatement)
    ensures GetFlags(Select(s), false).Keys == Raised(Select(s))
  {
  }

  /** A flag is in a SELECT's result exactly when its own test, or the limit or order test, holds. */
  lemma SelectFlagIn(s: SelectStatement.SelectStatement, g: Flag)
    ensures g in GetFlags(Select(s), false)
        <==> SelectRaises(s, g) || (g == Limit && s.limit.Some?) || (g == Order && s.order != [])
  {
    FlagKey(Select(s), false, g);
    SelectRaised(s, g);
    SelectFlagsMember(s, g);
  }

  /**
   * is_count comes from a COUNT expression and is_func from one of FUNCTIONS;
   * COUNT is not among them, so a COUNT never raises is_func.
   */
  lemma CountIsNotAFunction(s: SelectStatement.SelectStatement)
    ensures IsCount in GetFlags(Select(s), false) <==> exists e :: e in s.expr && e.func == "COUNT"
    ensures IsFunc in GetFlags(Select(s), false) <==> exists e :: e in s.expr && e.func in FUNCTIONS
    ensures "COUNT" !in FUNCTIONS
  {
    FunctionsAreNamed();
    assert IsCount in GetFlags(Select(s), false) <==> exists e :: e in s.expr && e.func == "COUNT" by {
      SelectFlagIn(s, IsCount);
      if exists e :: e in s.expr && e.func == "COUNT" {
        var e :| e in s.expr && e.func == "COUNT";
        assert CountsRows(e);
      }
    }
    assert IsFunc in GetFlags(Select(s), false) <==> exists e :: e in s.expr && e.func in FUNCTIONS by {
      SelectFlagIn(s, IsFunc);
      FunctionsAreNamed();
      if exists e :: e in s.expr && e.func in FUNCTIONS {
        var e :| e in s.expr && e.func in FUNCTIONS;
        assert CallsFunction(e);
      }
    }
  }

  /** Without all values, every flag present is true or a query type name. */
  lemma NoFalseFlagUnlessAll(stmt: Statement)
    ensures forall k :: k in GetFlags(stmt, false) ==> GetFlags(stmt, false)[k] != Bool(false)
  {
  }

  /**
   * The two modes agree: leaving out `all` drops exactly the flags whose value
   * would be false, and changes no value that remains.
   */
  lemma FalseValuesOnlyWithAll(stmt: Statement)
    ensures GetFlags(stmt, false)
         == map k | k in GetFlags(stmt, true) && GetFlags(stmt, true)[k] != Bool(false) :: GetFlags(stmt, true)[k]
  {
    var full := GetFlags(stmt, true);
    var part := GetFlags(stmt, false);
    var kept := map k | k in full && full[k] != Bool(false) :: full[k];
    forall k | k in Raised(stmt) {
      FlagListed(k);
    }
    assert part.Keys == kept.Keys;
  }

  /** Every listed kind names itself in querytype; an unlisted one leaves it unset or false. */
  lemma QueryTypeNamesKind(stmt: Statement, all: bool)
    ensures var f := GetFlags(stmt, all);
            (stmt != Unlisted <==> QueryType in f && f[QueryType].Text?) &&
            (stmt != Unlisted ==> f[QueryType] == Text(TypeName(stmt)) && TypeName(stmt) != "")
  {
    QueryTypeRaised(stmt);
    FlagKey(stmt, all, QueryType);
  }

  /** Every listed kind, and only a listed kind, raises querytype and has a type name. */
  lemma QueryTypeRaised(stmt: Statement)
    ensures QueryType in Raised(stmt) <==> stmt != Unlisted
    ensures TypeName(stmt) != "" <==> stmt != Unlisted
  {
    if stmt.Select? {
      SelectFlagsMember(stmt.select, QueryType);
    }
  }

  /** A SELECT raises select_from exactly when it has a FROM clause, join when it has a JOIN. */
  lemma SelectFromJoinFlags(s: SelectStatement.SelectStatement)
    ensures SelectFrom in GetFlags(Select(s), false) <==> s.from != []
    ensures Join in GetFlags(Select(s), false) <==> s.join != []
  {
    assert SelectFrom in Raised(Select(s)) <==> s.from != [] by {
      SelectRaised(s, SelectFrom);
      SelectFlagsMember(s, SelectFrom);
    }
    assert Join in Raised(Select(s)) <==> s.join != [] by {
      SelectRaised(s, Join);
      SelectFlagsMember(s, Join);
    }
    SelectKeys(s);
  }

  /** group and having follow their clauses; is_group is raised by either. */
  lemma SelectGroupFlags(s: SelectStatement.SelectStatement)
    ensures IsGroup in GetFlags(Select(s), false) <==> s.group != [] || s.having != []
    ensures Group in GetFlags(Select(s), false) <==> s.group != []
    ensures Having in GetFlags(Select(s), false) <==> s.having != []
  {
    assert IsGroup in Raised(Select(s)) <==> s.group != [] || s.having != [] by {
      SelectRaised(s, IsGroup);
      SelectFlagsMember(s, IsGroup);
    }
    assert Group in Raised(Select(s)) <==> s.group != [] by {
      SelectRaised(s, Group);
      SelectFlagsMember(s, Group);
    }
    assert Having in Raised(Select(s)) <==> s.having != [] by {
      SelectRaised(s, Having);
      SelectFlagsMember(s, Having);
    }
    SelectKeys(s);
  }

  /** union follows the UNION list; is_subquery is raised by any expression holding a subquery. */
  lemma SelectUnionSubqueryFlags(s: SelectStatement.SelectStatement)
    ensures Union in GetFlags(Select(s), false) <==> s.union != []
    ensures IsSubquery in GetFlags(Select(s), false) <==> exists e :: e in s.expr && !PhpEmpty(e.subquery)
  {
    assert Union in Raised(Select(s)) <==> s.union != [] by {
      SelectRaised(s, Union);
      SelectFlagsMember(s, Union);
    }
    assert IsSubquery in Raised(Select(s)) <==> exists e :: e in s.expr && !PhpEmpty(e.subquery) by {
      SelectRaised(s, IsSubquery);
      SelectFlagsMember(s, IsSubquery);
    }
    SelectKeys(s);
  }

  /** DISTINCT raises distinct. */
  lemma SelectDistinctFlag(s: SelectStatement.SelectStatement)
    ensures Distinct in GetFlags(Select(s), false) <==> Has(s.options, "DISTINCT")
  {
    SelectFlagIn(s, Distinct);
  }

  /** INTO OUTFILE raises is_export and PROCEDURE ANALYSE raises is_analyse. */
  lemma SelectExportAnalyseFlags(s: SelectStatement.SelectStatement)
    ensures IsExport in GetFlags(Select(s), false) <==> s.into == Some("OUTFILE")
    ensures IsAnalyse in GetFlags(Select(s), false) <==> s.procedure == Some("ANALYSE")
  {
    assert IsExport in Raised(Select(s)) <==> s.into == Some("OUTFILE") by {
      SelectRaised(s, IsExport);
      SelectFlagsMember(s, IsExport);
    }
    assert IsAnalyse in Raised(Select(s)) <==> s.procedure == Some("ANALYSE") by {
      SelectRaised(s, IsAnalyse);
      SelectFlagsMember(s, IsAnalyse);
    }
    SelectKeys(s);
  }

  /** A SELECT never raises is_affected or reload. */
  lemma SelectNeverAffects(s: SelectStatement.SelectStatement)
    ensures IsAffected !in GetFlags(Select(s), false) && Reload !in GetFlags(Select(s), false)
  {
    assert IsAffected !in Raised(Select(s)) by {
      SelectRaised(s, IsAffected);
      SelectFlagsMember(s, IsAffected);
    }
    assert Reload !in Raised(Select(s)) by {
      SelectRaised(s, Reload);
      SelectFlagsMember(s, Reload);
    }
    SelectKeys(s);
  }
}
