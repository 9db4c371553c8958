# A model of the statement utilities and four fragment parsers of a PHP SQL parser

This project models part of a MySQL query parser written in PHP, in Dafny.

- **Tokens.** A lexer produces a `TokensList`, a token array with a cursor `idx`. Each token carries its raw text (`token`), its normalised `value`, its type and its keyword flags.
- **Fragment parsers.** Each one reads from the cursor and normally leaves the cursor on the last token it consumed; `DataTypeFragment` returning null leaves it one further. All but `SetKeyword` report problems through `Parser::error`, which appends a diagnostic to the parser's error list. Four are modelled:
  - `FieldDefFragment`: the parenthesised column and key list of `CREATE TABLE`.
  - `DataTypeFragment`: a column's data type with its size and options.
  - `IntoKeyword`: the target of `INSERT ... INTO`.
  - `SetKeyword`: the `col = value` list of `UPDATE ... SET`.
- **Statements.** `SelectStatement` and `DeleteStatement` contribute their option tables, their clause table (`DELETE`) and the fields read by the utilities.
- **Query utilities.** `Query` holds four operations over a parsed statement:
  - `getFlags` summarises a statement as a map of flags.
  - `getClauseType` extracts the leading keyword of a clause.
  - `getClause` returns the text before, inside or after one clause. It scans the tokens and tracks bracket depth and the clause "section" each top-level keyword opens.
  - `replaceClause` splices a new clause into that text.

How each part is modelled:

- **Token list and parser.** These are classes: `Tokens.TokensList` has a mutable `idx`, and `Tokens.Parser` has a mutable `errors` sequence.
- **Fragment parsers.** Each one is a `method` that updates those fields in a `while` loop, as the PHP does. Each method is proved equal to a recursive specification function, its `Grammar`. The lemmas about the grammars state what the parsers promise:
  - which entries are produced and from which tokens;
  - where the cursor is left;
  - which diagnostics are raised.
- **Delegated parsers.** The fragments call out to `ArrayFragment::parse`, `OptionsFragment::parse` and (from `FieldDefFragment`) `DataTypeFragment::parse`.
  - The first two are not part of this model. They are parameters: functions on the token sequence and a start index, returning a result and the last consumed index. `Delegates.ArrayContract` and `Delegates.OptionsContract` constrain that index to stay within the input.
  - `DataTypeFragment`'s own grammar is used where `FieldDefFragment` calls it.
- **Query utilities.** `getFlags`, `getClauseType` and `replaceClause` are functions over values. `getClause` and `getClauseType` loop in the source, so they are methods with loop invariants, each proved equal to a function.

## Model

| member | source | states |
|---|---|---|
| Query.GetClauseType | src/Utils/Query.php:416-433 | The loop returns `ClauseType(clause)`, the maximal alphanumeric run after the leading whitespace. This is the intended reading of the source; see Findings. |
| Query.ClauseTypeIsLeadingWord | src/Utils/Query.php:416-433 | The clause type consists only of alphanumerics. It starts right after the leading whitespace and cannot be extended by the next character. |
| Query.ClauseTypeIsOneWord | src/Utils/Query.php:416-433 | A clause type never contains a space, so a multi-word key such as `ORDER BY` is never returned. |
| Query.ClauseTypeOfOrderBy | src/Utils/Query.php:416-433 | `ORDER BY x` has type `ORDER`. |
| Query.ClauseTypeOfWhere | src/Utils/Query.php:416-433 | `WHERE x` has type `WHERE`. |
| Query.ClauseTypeAsWrittenJoinsZero | src/Utils/Query.php:420 | As written, the whitespace skip tests `empty($type)`, which also holds of `"0"`. So `"0 1"` yields `"01"` where the clause type is `"0"`. |
| Query.ClauseTypeAsWrittenAgrees | src/Utils/Query.php:416-433 | The as-written scan equals the clause type whenever the clause type is not `"0"`, so the discrepancy is confined to that case. |
| Query.GetClause | src/Utils/Query.php:449-518 | The loop over `first..last` returns `ClauseText`: the trimmed concatenation of token texts up to the first delimiter whose section is before (-1), equal to (0) or after (1) the clause's section. When `skipFirst` is set, the keyword that opens the clause's own section is left out. |
| Query.SectionsMonotone | src/Utils/Query.php:493-507 | The current section index never decreases along the scan and is never negative. |
| Query.SectionChangesOnlyAtDepthZero | src/Utils/Query.php:485-507 | The section changes only at a keyword listed in the section table. That keyword sits outside all brackets, the new section is the keyword's index, and it is strictly larger than the old one. |
| Query.DepthCountsBrackets | src/Utils/Query.php:485-491 | The bracket depth after n tokens is the number of `(` operators minus the number of `)` operators among them. |
| Query.DelimiterEndsScan | src/Utils/Query.php:481-483 | Nothing after the first delimiter influences the result: appending tokens after a delimiter changes neither the stopping point nor the emitted text. |
| Query.SkipFirstOmitsSectionKeyword | src/Utils/Query.php:497-503 | With `skipFirst`, a keyword that enters the clause's section is never emitted. Without it, that keyword is part of the clause text (kind 0). |
| Query.SkipFirstOnlyAffectsClause | src/Utils/Query.php:499-514 | `skipFirst` changes nothing for the text before (-1) or after (1) the clause. |
| Query.PartsPartitionText | src/Utils/Query.php:509-514 | The before, clause and after texts partition the scanned text: their concatenation is the raw text up to the delimiter. While the scan is before the clause's section, the clause and after parts are empty, and until it passes that section the after part is empty. |
| Query.ReplaceClauseSplices | src/Utils/Query.php:534-548 | `replaceClause` is the trimmed before-text, the new clause, optionally the old clause body without its keyword (`onlyType`), and the trimmed after-text, joined by single spaces. Untrimmed, the three parts it draws from concatenate to the whole statement text. |
| Query.DeleteWhereScan | src/Statements/DeleteStatement.php:49-58 | In `DELETE FROM t WHERE x`, `DELETE` opens section 2 and `FROM` opens section 3. `WHERE` shares section 3 and so does not move the scan. |
| Query.DeleteWhereBody | src/Utils/Query.php:493-514 | For that statement, the untrimmed `WHERE` clause text with `skipFirst` is `" t  x"`: everything from `FROM` on belongs to the same tier, minus the section keywords. |
| Query.DeleteWhereBefore | src/Utils/Query.php:509-514 | For that statement, the untrimmed text before the `WHERE` clause is `"DELETE "`. |
| Query.DeleteWhereSpansTier | src/Utils/Query.php:449-518 | For `DELETE FROM t WHERE x`, the `WHERE` clause covers `t` and `x`, and the text before it is `DELETE`. The lookup succeeds because the clause type is in the section table. |
| Query.FunctionsAreNamed | src/Utils/Query.php:48-50 | The aggregate function list is non-empty text throughout and does not contain `COUNT`, which has a flag of its own. |
| Query.NamesDistinct | src/Utils/Query.php:63-219 | No two flags share a key in the result map. |
| Query.FlagListed | src/Utils/Query.php:63-219 | Every flag is among the keys `getFlags($s, true)` initialises. |
| Query.NoFalseFlagUnlessAll | src/Utils/Query.php:60-349 | Without `all`, no key of the result maps to false. |
| Query.FalseValuesOnlyWithAll | src/Utils/Query.php:56-62 | The result without `all` is the result with `all` minus exactly its false entries; every remaining value is unchanged. |
| Query.DeleteFlags | src/Utils/Query.php:246-249 | A DELETE reports type `DELETE`, `is_delete` and `is_affected`. |
| Query.ReplaceFlags | src/Utils/Query.php:266-270 | A REPLACE reports type `REPLACE`, `is_affected`, `is_replace` and `is_insert`. |
| Query.DropDatabaseFlag | src/Utils/Query.php:250-258 | A DROP reports type `DROP` and `reload`. It raises `drop_database` if and only if its options contain `DATABASE` or `SCHEMA`. |
| Query.UnlistedRaisesNothing | src/Utils/Query.php:222-334 | A statement of an unlisted kind raises nothing. With `all` every flag is false; without it the map is empty. |
| Query.QueryTypeNamesKind | src/Utils/Query.php:222-334 | `querytype` is present and textual exactly for the listed kinds, and holds that kind's non-empty type name. |
| Query.QueryTypeRaised | src/Utils/Query.php:222-334 | `querytype` is raised, and the type name is non-empty, exactly for the listed kinds. |
| Query.LimitOrderOnlyWhenPresent | src/Utils/Query.php:336-346 | `limit` (`order`) is reported if and only if the statement is a SELECT, UPDATE or DELETE whose limit (order) is non-empty. |
| Query.LimitOrderNotKind | src/Utils/Query.php:222-334 | No kind branch raises `limit` or `order`; only the shared tail does. |
| Query.SelectFlagIn | src/Utils/Query.php:271-346 | A flag is reported for a SELECT if and only if its SELECT condition holds, or it is `limit` or `order` and that clause is present. |
| Query.SelectFromJoinFlags | src/Utils/Query.php:275-277 | `select_from` holds if and only if FROM is non-empty, and `join` if and only if JOIN is non-empty (lines 324-326). |
| Query.SelectGroupFlags | src/Utils/Query.php:283-285 | `is_group` holds if and only if GROUP BY or HAVING is non-empty. `group` and `having` each follow their own clause (lines 312-318). |
| Query.SelectDistinctFlag | src/Utils/Query.php:279-281 | `distinct` holds if and only if the options contain `DISTINCT`. |
| Query.SelectExportAnalyseFlags | src/Utils/Query.php:287-310 | `is_export` holds if and only if the INTO target has type `OUTFILE`. `is_analyse` holds if and only if the procedure is `ANALYSE`. |
| Query.CountIsNotAFunction | src/Utils/Query.php:293-300 | `is_count` holds if and only if some expression calls `COUNT`, and `is_func` if and only if some expression calls a listed aggregate. `COUNT` is not among those. |
| Query.SelectUnionSubqueryFlags | src/Utils/Query.php:301-322 | `union` holds if and only if the union list is non-empty. `is_subquery` holds if and only if some expression holds a non-empty subquery. |
| Query.SelectNeverAffects | src/Utils/Query.php:271-327 | A SELECT never reports `is_affected` or `reload`. |
| FieldDefFragment.Parse | src/Fragments/FieldDefFragment.php:73-180 | The loop returns the entries of the grammar and leaves the cursor and the diagnostics where the grammar says. |
| FieldDefFragment.Advance | src/Fragments/FieldDefFragment.php:116-169 | One pass of the loop body, on the token under the cursor, has the effect of one grammar step. It either stops the loop with the grammar's outcome or continues with the grammar's next state. |
| FieldDefFragment.Step | src/Fragments/FieldDefFragment.php:107-170 | One iteration never moves the cursor backwards. It moves it forward or else reaches a state of lower rank, so the loop ends. Entries and diagnostics are only appended, never lost. |
| FieldDefFragment.Loop | src/Fragments/FieldDefFragment.php:107-177 | The loop leaves the cursor between one before its start and the end of the list. It keeps all entries and diagnostics it started with. |
| FieldDefFragment.LoopStopsAtDelimiter | src/Fragments/FieldDefFragment.php:111-114 | In any state, the end of the input or a delimiter ends the loop. The entry in progress is kept only if it recorded a token (lines 172-175), the cursor is left just before the delimiter (line 177), and no diagnostic is added. |
| FieldDefFragment.LoopSkipsTrivia | src/Fragments/FieldDefFragment.php:116-119 | Whitespace and comments under the cursor change neither the state nor the entries nor the diagnostics: the outcome is that of the loop started at the next significant token. |
| FieldDefFragment.StateZeroSkipsToOpen | src/Fragments/FieldDefFragment.php:121-125 | Before the opening `(`, every token is passed over. Parsing resumes in state 1 just after it. |
| FieldDefFragment.NoOpenNoFields | src/Fragments/FieldDefFragment.php:121-125 | Input without an opening `(` yields no entries and no diagnostics. |
| FieldDefFragment.EntryStartTransitions | src/Fragments/FieldDefFragment.php:126-140 | In state 1: `CONSTRAINT` leads to state 4, and a key-type keyword sets the key type and leads to state 5. Any other keyword stops with `Unexpected keyword.` and leaves the cursor one before that keyword (the `break` followed by the final step back). A non-keyword becomes the column name and leads to state 2. |
| FieldDefFragment.ConstraintTransitions | src/Fragments/FieldDefFragment.php:147-153 | In state 4, a key-type keyword sets the key type and leads to state 5. Any other token becomes the constraint name. |
| FieldDefFragment.EntryEnds | src/Fragments/FieldDefFragment.php:157-169 | In state 6, `,` closes the entry and starts a fresh one in state 1 without recording the comma. `)` closes it and ends the list with the cursor on the `)`. Any other token closes the entry and opens a new one that records that token, staying in state 6. |
| FieldDefFragment.DelegationTransitions | src/Fragments/FieldDefFragment.php:141-156 | Each delegating state hands the cursor to exactly one delegate: the data-type grammar in state 2 (then state 3, with the data type's diagnostics), the options grammar in state 3 and the list grammar in state 5 (both then state 6). The loop resumes one past the delegate's last token, and the token recorded is the one under the cursor when the delegate was called. |
| FieldDefFragment.EntriesRecordOnlySignificantTokens | src/Fragments/FieldDefFragment.php:116-169 | Every entry records only significant tokens: never whitespace, a comment or a delimiter. |
| FieldDefFragment.DelegationsRecordOnlySignificantTokens | src/Fragments/FieldDefFragment.php:141-156 | The same holds across the states that delegate to the data-type, options and array parsers. |
| FieldDefFragment.DataTypeCursorBounds | src/Fragments/FieldDefFragment.php:141-143 | The delegated data-type parse leaves the cursor within the list and only adds diagnostics. |
| FieldDefFragment.OptionTableShape | src/Fragments/FieldDefFragment.php:25-36 | `NOT NULL` and `NULL` share slot 1. Exactly `DEFAULT`, `COMMENT` and `COLUMN_FORMAT` take a value, and every slot lies in 1..6. |
| DataTypeFragment.Parse | src/Fragments/DataTypeFragment.php:73-129 | The loop returns the grammar's node (null when the name is PHP-empty: none was read, or it is `0`) and leaves the cursor and the diagnostics where the grammar says. |
| DataTypeFragment.ParseSizeAndOptions | src/Fragments/DataTypeFragment.php:109-118 | State 1 reads an optional parenthesised size list, then the options. It returns the parameters and options and leaves the cursor one past the options, as the size-and-options function says. |
| DataTypeFragment.SizeAndOptions | src/Fragments/DataTypeFragment.php:109-118 | The size-and-options step never moves the cursor backwards nor past the end of the list. |
| DataTypeFragment.LoopSkipsTrivia | src/Fragments/DataTypeFragment.php:98-101 | Whitespace and comments under the cursor do not change the outcome. |
| DataTypeFragment.LoopIsGrammar | src/Fragments/DataTypeFragment.php:90-121 | The loop from state 0 is the grammar: the first significant token is the name, and the next one starts the size and options. |
| DataTypeFragment.NameAndError | src/Fragments/DataTypeFragment.php:103-108 | The name is the upper-cased first significant token, and the node exists if and only if that name is not PHP-empty. `Unrecognized data type.` is raised if and only if the token is not a data-type keyword. Input that is all whitespace yields null with no diagnostic. |
| DataTypeFragment.ParametersFromSizeList | src/Fragments/DataTypeFragment.php:110-115 | With a size list, `ENUM` and `SET` keep its raw texts and every other type keeps its values. Without one, the parameters are empty. |
| DataTypeFragment.CursorOnExit | src/Fragments/DataTypeFragment.php:112-127 | The cursor ends on the last token the options consumed, or one further when the node is null. When the input ends right after the name, it ends on the last token, or one past it (the end of the list) when the node is null. It always lies between one before the start and the end of the list. |
| DataTypeFragment.OptionTableShape | src/Fragments/DataTypeFragment.php:28-35 | `CHARACTER SET` and `CHARSET` are the same valued option in slot 2, and `COLLATE` is a plain flag in slot 3. Every slot lies in 1..5. |
| IntoKeyword.Parse | src/Fragments/IntoKeyword.php:38-106 | The loop returns the grammar's table and fields and leaves the cursor and the diagnostics where the grammar says. |
| IntoKeyword.Loop | src/Fragments/IntoKeyword.php:57-104 | The cursor is left between one before the start and the last token. |
| IntoKeyword.FirstStop | src/Fragments/IntoKeyword.php:61-92 | The first token that ends the list: a delimiter, a reserved keyword or an operator other than `(` and `,`. |
| IntoKeyword.LoopStopsAtFirstStop | src/Fragments/IntoKeyword.php:61-92 | The cursor is left just before that first stopping token, or on the last token. |
| IntoKeyword.TableFrozenAfterSeparator | src/Fragments/IntoKeyword.php:95-96 | Once a `(` or `,` has been seen, the table name no longer changes. |
| IntoKeyword.TableIsLeadingText | src/Fragments/IntoKeyword.php:95-96 | The table name is the concatenated values of the significant tokens before the first separator. |
| IntoKeyword.FieldsFollowSeparators | src/Fragments/IntoKeyword.php:76-100 | The fields are exactly the values of the tokens that come directly (up to whitespace) after a separator, in order. |
| IntoKeyword.GrammarShape | src/Fragments/IntoKeyword.php:57-104 | Where the cursor is left, the table name and the field list, all at once. |
| IntoKeyword.SeparatorDiagnostics | src/Fragments/IntoKeyword.php:76-89 | `(` moves to state 1 and raises `Table name was expected.` if and only if the table is PHP-empty. `,` moves to state 1 and raises `Field name was expected.` if and only if no field came just before it. |
| IntoKeyword.SeparatorInStep | src/Fragments/IntoKeyword.php:76-89 | A separator has been seen after one more token if and only if it had been seen before or that token is one. |
| IntoKeyword.StateMatchesStep | src/Fragments/IntoKeyword.php:76-100 | The parser's state is a function of the tokens seen so far: 0 before any separator, 1 just after one, 2 after a field. A token is a field if and only if it arrives in state 1. |
| SetKeyword.Parse | src/Fragments/SetKeyword.php:37-104 | The loop returns the grammar's entries and leaves the cursor where the grammar says. |
| SetKeyword.Loop | src/Fragments/SetKeyword.php:58-102 | The cursor is left between one before the start and the last token. |
| SetKeyword.FirstStop | src/Fragments/SetKeyword.php:62-75 | The first token that ends the list: a delimiter or any keyword. |
| SetKeyword.LoopStopsAtFirstStop | src/Fragments/SetKeyword.php:62-75 | The cursor is left just before that first stopping token. |
| SetKeyword.ConsistentStep | src/Fragments/SetKeyword.php:77-93 | The entry in progress always equals the entry its own tokens determine, with state 1 exactly after an `=`. |
| SetKeyword.ColumnOfSnoc | src/Fragments/SetKeyword.php:88-93 | A new token extends the column name exactly while no `=` has been seen, the new token included. |
| SetKeyword.LoopReadsSegments | src/Fragments/SetKeyword.php:58-102 | The entries are those of the comma-separated segments of kept tokens up to the first stop, one entry per segment. |
| SetKeyword.GrammarShape | src/Fragments/SetKeyword.php:58-102 | The entries are those of the segments, and the cursor is left before the first stop. |
| SetKeyword.SplitKeepsTokens | src/Fragments/SetKeyword.php:77-93 | The segments together hold exactly the kept tokens, in order: no token is lost or duplicated. |
| SetKeyword.SplitCount | src/Fragments/SetKeyword.php:77-100 | There is one segment per comma, plus one for a non-empty last segment. |
| SetKeyword.EntriesSummary | src/Fragments/SetKeyword.php:58-102 | Each entry is determined by its own tokens. Together, the entries' tokens are exactly the kept tokens. The number of entries is the number of commas, plus one unless the text after the last comma is empty. |
| SelectStatement.DistinctKeywordsShareSlot | src/Statements/SelectStatement.php:44-57 | `ALL`, `DISTINCT` and `DISTINCTROW` share slot 1, so they exclude one another. `SQL_CACHE` and `SQL_NO_CACHE` share slot 8. |
| SelectStatement.OnlyMaxStatementTimeCaptures | src/Statements/SelectStatement.php:44-57 | `MAX_STATEMENT_TIME` is the only option that takes a value. |
| SelectStatement.SlotsWellFormed | src/Statements/SelectStatement.php:44-57 | Slots lie in 1..9, and options sharing a slot agree on whether they take a value. |
| DeleteStatement.SectionsOf | src/Statements/DeleteStatement.php:49-58 | In the key-to-section table built from the clause list, the last entry's key maps to that entry's section. |
| DeleteStatement.SectionsOfKeys | src/Statements/DeleteStatement.php:49-58 | The table's keys are exactly the clause keys. |
| DeleteStatement.ClausesWellFormed | src/Statements/DeleteStatement.php:49-58 | Every clause names itself, its section lies in 1..3 and no key repeats. |
| DeleteStatement.SectionTiers | src/Statements/DeleteStatement.php:49-58 | The section table: `_OPTIONS` is 1, `DELETE` is 2, and `FROM`, `PARTITION`, `WHERE`, `ORDER BY` and `LIMIT` are all 3. |
| DeleteStatement.DeclarationOrderNotMonotone | src/Statements/DeleteStatement.php:50-52 | `DELETE` is declared before `_OPTIONS` yet has the higher section, so declaration order is not section order. |
| DeleteStatement.OptionsDistinct | src/Statements/DeleteStatement.php:36-40 | `LOW_PRIORITY`, `QUICK` and `IGNORE` occupy slots 1, 2 and 3, and none takes a value. |

## Left out

- **`Query::getAll`**: not modelled. It needs the statement builder, which is outside this model.
- **Delegated parsers.** `ArrayFragment::parse`, `OptionsFragment::parse` and the keyword tables of `Context` (for example `Context::$KEY_TYPES`) are not part of this model.
  - The parsers are parameters constrained only to keep the cursor in bounds.
  - The key-type table is a parameter set.
  - The diagnostics the delegated parsers themselves raise are not modelled.
- **Other statements.** `Statement.php` and the statement classes other than `SelectStatement` and `DeleteStatement` are not part of this model.
  - getFlags's other statement kinds are constructors of `Query.Statement` carrying only the fields getFlags reads.
  - Any other kind is `Unlisted`.
- **Section table.** getClause reads `Statement::$SECTIONS`. `DeleteStatement.php` declares no `$SECTIONS`, and `Statement.php` is not part of this model. For DELETE the model assumes the key-to-section map of `$CLAUSES` (`DeleteStatement.Sections`). For other statements the section table is a map parameter.
- Query.GetClause: looks up the clause's section under the corrected clause type (`ClauseType`), where src/Utils/Query.php:475 calls the as-written `getClauseType`. The two differ only for a clause whose type is `0` (see Findings), which is not a key of the DELETE section table.
- Query.GetClause: unknown clause types. It requires the clause type to be in the section table. For an unknown type the source reads an undefined index (a PHP notice) and compares against null; that path is not modelled.
- Query.ReplaceClause: unknown clause types. It requires the same of its clause type, for the same reason.
- **Values, not objects.** `SelectStatement` and `DeleteStatement` are values holding the fields getFlags reads.
  - Clause contents are kept as their text.
  - `into`, `procedure` and `union`, read by getFlags but not declared in `SelectStatement.php`, are optional fields.
  - `into` holds only its type and `procedure` only its name.
- **Character classes.** Whitespace, alphanumerics, upper-casing and `trim` cover ASCII only, and PHP `null` is read as `""`, `[]` or `None`.
- Query.GetFlags: keys and values. The result is keyed by the `Flag` datatype rather than by strings. `Name` gives each flag's string key, and the key order of the PHP array is not modelled.
- SetKeyword.Parse: no parser argument. It takes no parser, because the source never reports through it.
- FieldDefFragment.Parse and DataTypeFragment.Parse: split loop bodies. The loop bodies are split into `FieldDefFragment.Advance` and `DataTypeFragment.ParseSizeAndOptions`. The control flow is the same; `continue` and `break` become returns and a `done` flag.
- Query.DeleteWhereSpansTier: untrimmed texts. It states the parts before `trim`; trimming is modelled by `Php.Trim`.

## Findings

| source | as written | input that shows it | evidently intended | confidence | as-written member | corrected member |
|---|---|---|---|---|---|---|
| src/Utils/Query.php:420 | Leading whitespace is skipped while `empty($type)` holds, and `empty("0")` is true in PHP, so whitespace after a leading `0` is skipped too | `getClauseType("0 1")` returns `"01"` | Skip only the leading whitespace (`$type === ''`), giving `"0"` | not executed | Query.ClauseTypeAsWrittenJoinsZero | Query.GetClauseType |
