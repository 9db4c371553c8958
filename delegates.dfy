/**
 * The two generic grammars every fragment builds on, seen from the outside:
 * the options grammar (OptionsFragment::parse) and the list grammar
 * (ArrayFragment::parse). Their code is not part of this model, so a fragment
 * receives each as a function over the token list and the cursor, and all it
 * may rely on is the cursor contract below.
 */
module Delegates {
  import opened Tokens

  /** One entry of a recognised-options table: the slot it fills and whether it captures a value. */
  datatype OptionSpec = OptionSpec(slot: int, captures: bool)

  /** A recognised-options table, keyword (or keyword phrase) to its spec. */
  type OptionTable = map<string, OptionSpec>

  /** What a filled slot holds: the keyword alone, or the keyword and its captured value. */
  datatype OptionValue = Present(name: string) | Captured(name: string, value: string)

  /** The result of the options grammar: at most one entry per slot. */
  datatype OptionsFragment = OptionsFragment(slots: map<int, OptionValue>)

  /** OptionsFragment::has: some slot holds the keyword `name`. */
  predicate Has(o: OptionsFragment, name: string)
  {
    exists s :: s in o.slots && o.slots[s].name == name
  }

  /** The result of the list grammar: the raw text and the parsed value of each element. */
  datatype ArrayFragment = ArrayFragment(raw: seq<string>, values: seq<string>)

  /** A delegate's result together with the cursor it leaves behind (its last consumed token). */
  datatype Parsed<+T> = Parsed(result: T, last: int)

  type OptionsParser = (seq<Token>, int, OptionTable) -> Parsed<OptionsFragment>

  type ArrayParser = (seq<Token>, int) -> Parsed<ArrayFragment>

  /**
   * The leave-one-behind contract: started at a cursor within the list, a
   * delegate leaves the cursor on the last token it consumed, which is at worst
   * the token just before where it started and never past the end.
   */
  ghost predicate OptionsContract(p: OptionsParser)
  {
    forall ts: seq<Token>, i: int, table: OptionTable ::
      0 <= i <= |ts| ==> i - 1 <= p(ts, i, table).last < |ts|
  }

  ghost predicate ArrayContract(p: ArrayParser)
  {
    forall ts: seq<Token>, i: int :: 0 <= i <= |ts| ==> i - 1 <= p(ts, i).last < |ts|
  }
}
