# Identifier remapping for user-written SQL

The product shows each table to its users under friendly column names and a
friendly table name, while the SQLite storage addresses columns and tables by
generated internal identifiers. `lib/sqlite/sql-parser.ts` bridges the two:

- `transformSql(sql, rawTableName, columnNameMap)` parses the query, builds a
  copy of `columnNameMap` whose keys are lower-cased, and walks the syntax tree
  of the first statement with two callbacks: a column reference (`ref`) whose
  name hits the folded map with a non-empty value takes that value as its
  name, and every table reference (`tableRef`) takes `rawTableName` as its
  name. Every other node is copied by the library's default descent. The
  result is printed back to SQL.
- `getColumnsFromQuery(sql?)` returns `[]` for an absent or empty query and
  otherwise the projection list of the first parsed statement.

This project models that logic in Dafny:

- `Ast` is a closed datatype for the syntax tree the rewrite walks. A `Select`
  holds projections with optional aliases, FROM items (tables with schema and
  alias, or aliased subqueries, each with an optional join and its `ON`
  condition), WHERE, GROUP BY, ORDER BY, LIMIT and OFFSET. Expressions are
  column references with an optional qualifier, string/integer/numeric/boolean/null
  literals, binary and unary operators, function calls and scalar subqueries.
- `FoldedMap.FoldKeys` builds the case-folded map from the caller's map,
  given as its entries in insertion order. `FoldedMap.Hits` is the lookup
  together with its truthiness test.
- `Mapper` holds the two callbacks (`RenameRef`, `RenameTable`) and an
  explicit recursive rewrite (`RemapSelect` and its helpers). The rewrite
  descends into every expression position, join condition and subquery.
- `Skeleton` and `Leaves` are two independent views of a tree. The skeleton
  is the tree with every column-reference name and table name blanked. The
  leaves are its column references, table references and literals in a fixed
  order. The rewrite is characterised by two facts. It keeps the skeleton.
  It maps the leaves one by one through the callbacks. `Determined` proves
  that a skeleton and a leaf list together fix the tree, so these two facts
  pin the rewritten tree exactly.
- `SqlParser` holds the two exported operations. The parser is a function
  parameter, and the result of `TransformSql` is the rewritten tree.
- `Scenarios` pins down complete rewrites of small queries.

Four behaviours of the code are easy to miss:

- The lookup is not case-insensitive on both sides. Only the map's keys are
  lower-cased. The reference's name is used as written, so a reference
  spelled with capitals never hits. Such a name can only come from a quoted
  identifier, because the parser lower-cases unquoted ones.
- A key mapped to the empty string counts as a miss (`if (rawName)`).
- Column extraction returns the first statement's projection list as the
  parser built it. It builds no display names or rendered text. An empty
  query yields `[]`, not an error.
- An input with no statement at all makes both operations fail, because both
  read a field of `undefined`. This appears as `SqlError.NoStatement`.

## Model

| member | source | states |
|---|---|---|
| FoldedMap.FoldKeys | lib/sqlite/sql-parser.ts:29-32 | every original key's lower-case form is a key; every key is the lower-case form of some original key; the value kept for a key is the one of the last entry folding to it; no key holds a capital letter |
| Ascii.Lower | lib/sqlite/sql-parser.ts:31 | lower-casing keeps the length, changes no character other than `A`-`Z`, and leaves no capital letter |
| SqlParser.RefHit | lib/sqlite/sql-parser.ts:35-41 | a reference whose name is a folded key with a non-empty kept value takes that value as its name and keeps its qualifier |
| SqlParser.RefMissAbsent | lib/sqlite/sql-parser.ts:36-43 | a reference whose name no key folds to comes out identical |
| SqlParser.RefMissEmptyValue | lib/sqlite/sql-parser.ts:36-43 | a reference whose folded key kept the empty string comes out identical, since `""` is falsy |
| SqlParser.RefRenamedOnlyByLastNonEmpty | lib/sqlite/sql-parser.ts:29-43 | a reference that changes at all was renamed to the non-empty value of the last entry folding to its name |
| SqlParser.CapitalizedRefNeverHits | lib/sqlite/sql-parser.ts:36 | the name is looked up as written, so a reference name holding a capital letter is never renamed |
| Mapper.RenameRef | lib/sqlite/sql-parser.ts:35-43 | the `ref` callback: a reference stays a reference with the same qualifier; on a hit its name becomes the mapped value; otherwise, and for any other node, the input comes back unchanged |
| Mapper.RenameTable | lib/sqlite/sql-parser.ts:45-50 | the `tableRef` callback: the name becomes the internal table name whatever it was; schema and alias are kept |
| Mapper.RemapExpr | lib/sqlite/sql-parser.ts:34-51 | at the root, references stay references with their qualifier and literals are returned unchanged; the whole descent is specified by Skeleton.RemapExprKeepsShape and Leaves.RemapSelectLeaves |
| Mapper.RemapSelect | lib/sqlite/sql-parser.ts:34-54 | every clause keeps its number of items and whether it is present; the whole descent is specified by Skeleton.RemapSelectKeepsShape, Leaves.RemapSelectLeaves and Determined.SelectDetermined |
| Leaves.RemapSelectLeaves | lib/sqlite/sql-parser.ts:34-51 | the rewritten statement's column references, table references and literals are the original ones, in the same order, each passed through the `ref`/`tableRef` callbacks, subqueries and join conditions included |
| Leaves.RemapLeafByLeaf | lib/sqlite/sql-parser.ts:35-50 | position by position: tables take the internal name and keep schema and alias; hitting references take the mapped name and keep their qualifier; missing references and all literals are unchanged |
| Leaves.EveryTableRenamed | lib/sqlite/sql-parser.ts:45-50 | no table reference anywhere in the rewritten statement has a name other than the internal table name |
| Skeleton.RemapExprKeepsShape | lib/sqlite/sql-parser.ts:34-51 | rewriting an expression changes nothing but column-reference names and table names inside it: node kinds, operators, literals, qualifiers and aliases stay in place |
| Skeleton.RemapSelectKeepsShape | lib/sqlite/sql-parser.ts:34-54 | rewriting a statement changes nothing but column-reference names and table names: same clauses, same node kinds in the same positions, same literals and aliases |
| Skeleton.ProjectionPreserved | lib/sqlite/sql-parser.ts:34-54 | the projection list keeps its length, its order, every alias and every projected expression's shape |
| SqlParser.TransformSql | lib/sqlite/sql-parser.ts:24-55 | a parse error is passed on; an empty statement list fails; otherwise the result is the first statement with its skeleton kept and its leaves renamed by the folded map and the internal table name |
| Determined.SelectDetermined | lib/sqlite/sql-parser.ts:34-54 | two statements with the same skeleton have equally many leaves, and with equal leaves as well they are equal, so the shape and leaf facts about the rewrite leave only one possible result |
| SqlParser.TransformSqlPinsResult | lib/sqlite/sql-parser.ts:34-55 | any statement with the first statement's skeleton and its renamed leaves is exactly the result of the rewrite |
| SqlParser.TransformIgnoresLaterStatements | lib/sqlite/sql-parser.ts:54 | two inputs whose first statements agree rewrite to the same result whatever follows |
| SqlParser.GetColumnsFromQuery | lib/sqlite/sql-parser.ts:10-15 | an absent or empty query gives `[]` without parsing; a parse error is passed on as such; an empty statement list fails; otherwise it returns the first statement's projection list unchanged, duplicates and order included |
| SqlParser.ColumnsAgreeWithTransform | lib/sqlite/sql-parser.ts:10-54 | for a non-empty query, extraction succeeds exactly when the rewrite does, and the rewritten statement has the extracted column count, order, aliases and expression shapes |
| Scenarios.TitleExample | lib/sqlite/sql-parser.ts:29-54 | `SELECT title FROM mytable WHERE title = 'cl_a4ef'` with `{title: cl_a4ef}` and `tb_123` becomes `SELECT cl_a4ef FROM tb_123 WHERE cl_a4ef = 'cl_a4ef'`, the literal untouched |
| Scenarios.CaseFoldingExample | lib/sqlite/sql-parser.ts:29-43 | key `Title` matches reference `title` but not reference `TITLE` |
| Scenarios.PassThroughExample | lib/sqlite/sql-parser.ts:36-50 | an unmapped column, or one mapped to `""`, passes through while the table is still renamed |
| Scenarios.CollisionExample | lib/sqlite/sql-parser.ts:29-32 | keys `Title` then `TITLE` fold to one key `title` that keeps the later value |

## Left out

- `parse`, `parseFirst` and `toSql` come from `pgsql-ast-parser`, which is not part of this model. Parsing is a function parameter. `parseFirst(sql)` is taken to be the first element of `parse(sql)`. No SQL text is produced: the rewritten tree is the result. The lexer, the parser and the serializer are not modelled, and neither is the library's lower-casing of unquoted identifiers. The input tree is assumed to carry names as the parser leaves them.
- Only SELECT statements are modelled. Other statement kinds (INSERT, UPDATE, DDL, UNION) are left out, and so are SELECT features outside the tree above: HAVING, DISTINCT, window and CASE expressions, casts, arrays, `USING` joins and function calls in FROM. The library's traversal of these is not visible here.
- A column-reference qualifier is a plain optional string; the library's schema-qualified form of it is not modelled. Qualifiers are never rewritten.
- `toLowerCase` is modelled as ASCII-only lower-casing; full Unicode case mapping is out of scope.
- Numeric literals are mathematical integers and reals; JavaScript's floating-point number representation is not modelled.
- The library mapper's ability to drop a node when a callback returns nothing is not modelled, since neither callback here ever does.
- lib/ai/openai.ts (an OpenAI network client, prompt templates and JSON/zod argument parsing), components/database-select.tsx and app/[database]/scripts/detail.tsx (React UI state and I/O) are not part of this model.
