/**
 * The token stream the grammar walks, the shared cursor over it and the
 * parser's diagnostics sink. The lexer that produces tokens is not part of
 * this model: tokens arrive already typed and flagged.
 */
module Tokens {

  /** The token categories the core distinguishes; every other category is Other. */
  datatype TokenType = Keyword | Operator | Whitespace | Comment | Delimiter | Other

  /**
   * A lexed token: its raw text (`token`), its normalised value, its category and
   * the two flag bits the core reads (reserved keyword, data-type keyword).
   */
  datatype Token = Token(token: string, value: string, kind: TokenType, reserved: bool, dataType: bool)

  /** Whitespace and comments, which every fragment skips. */
  predicate IsTrivia(t: Token)
  {
    t.kind == Whitespace || t.kind == Comment
  }

  /** The first token at or after `i` that is not whitespace or a comment (|ts| if none). */
  function NextSignificant(ts: seq<Token>, i: int): (j: int)
    requires 0 <= i <= |ts|
    ensures i <= j <= |ts|
    ensures forall k :: i <= k < j ==> IsTrivia(ts[k])
    ensures j < |ts| ==> !IsTrivia(ts[j])
    decreases |ts| - i
  {
    if i == |ts| || !IsTrivia(ts[i]) then i else NextSignificant(ts, i + 1)
  }

  predicate IsOperator(t: Token, v: string)
  {
    t.kind == Operator && t.value == v
  }

  /** A non-fatal diagnostic tied to the token that caused it. */
  datatype Diagnostic = Diagnostic(message: string, token: Token)

  /**
   * The token list with its cursor. The tokens and their count never change;
   * `idx` is the one piece of state every grammar routine advances.
   */
  class TokensList {
    const tokens: seq<Token>
    const count: nat
    var idx: int

    ghost predicate Valid()
    {
      count == |tokens|
    }

    constructor (tokens: seq<Token>)
      ensures Valid() && this.tokens == tokens && idx == 0
    {
      this.tokens := tokens;
      count := |tokens|;
      idx := 0;
    }
  }

  /** The part of the parser the fragments use: its list of reported errors. */
  class Parser {
    var errors: seq<Diagnostic>

    constructor ()
      ensures errors == []
    {
      errors := [];
    }

    /** Records a diagnostic; control flow is not affected. */
    method Error(message: string, token: Token)
      modifies this`errors
      ensures errors == old(errors) + [Diagnostic(message, token)]
    {
      errors := errors + [Diagnostic(message, token)];
    }
  }
}
