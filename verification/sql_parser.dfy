/** The two exported operations of lib/sqlite/sql-parser.ts. The SQL parser
    they call belongs to a library outside this model and is passed in as
    `parse`, which yields the statement list or the parser's error message. */
module SqlParser {
  import opened Wrappers
  import opened Seqs
  import opened Ascii
  import opened Ast
  import opened FoldedMap
  import opened Mapper
  import opened Skeleton
  import opened Leaves
  import opened Determined

  type Parser = string -> Result<seq<Select>, string>

  datatype SqlError =
    | ParseError(message: string)   // thrown by the parser
    | NoStatement                   // the input held no statement to read

  /** The renaming `transformSql` applies: the case-folded column map and the
      internal table name. */
  function RenamingFor(rawTableName: string, columnNameMap: Entries): (rn: Renaming)
    ensures rn.table == rawTableName
    ensures forall i :: 0 <= i < |columnNameMap| ==> Lower(columnNameMap[i].0) in rn.columns
  {
    Renaming(FoldKeys(columnNameMap), rawTableName)
  }

  /** Parses, rewrites the first statement only, and returns it (the final
      rendering back to SQL text is left to the library). */
  function TransformSql(sql: string, rawTableName: string, columnNameMap: Entries, parse: Parser): (r: Result<Select, SqlError>)
    ensures parse(sql).Failure? ==> r == Failure(ParseError(parse(sql).error))
    ensures parse(sql).Success? ==> (r.Success? <==> |parse(sql).value| > 0)
    ensures parse(sql).Success? && |parse(sql).value| == 0 ==> r == Failure(NoStatement)
    ensures r.Success? ==>
      var first := parse(sql).value[0];
      var rn := RenamingFor(rawTableName, columnNameMap);
      && EraseSelect(r.value) == EraseSelect(first)
      && LeavesOfSelect(r.value) == MapSeq(LeafRenamer(rn), LeavesOfSelect(first))
  {
    match parse(sql)
    case Failure(message) => Failure(ParseError(message))
    case Success(statements) =>
      if |statements| == 0 then Failure(NoStatement)
      else
        var rn := RenamingFor(rawTableName, columnNameMap);
        RemapSelectKeepsShape(rn, statements[0]);
        RemapSelectLeaves(rn, statements[0]);
        Success(RemapSelect(rn, statements[0]))
  }

  /** Returns the projection list of the first statement; an absent or empty
      query text yields no columns without calling the parser. */
  function GetColumnsFromQuery(sql: Option<string>, parse: Parser): (r: Result<seq<Column>, SqlError>)
    ensures sql == None || sql == Some("") ==> r == Success([])
    ensures sql.Some? && sql.value != "" ==>
      (r.Success? <==> parse(sql.value).Success? && |parse(sql.value).value| > 0)
    ensures sql.Some? && sql.value != "" && r.Success? ==> r.value == parse(sql.value).value[0].columns
    ensures sql.Some? && sql.value != "" && parse(sql.value).Failure? ==> r == Failure(ParseError(parse(sql.value).error))
    ensures r.Failure? && r.error.ParseError? ==> sql.Some? && parse(sql.value) == Failure(r.error.message)
  {
    match sql
    case None => Success([])
    case Some(text) =>
      if text == "" then Success([])
      else
        match parse(text)
        case Failure(message) => Failure(ParseError(message))
        case Success(statements) =>
          if |statements| == 0 then Failure(NoStatement) else Success(statements[0].columns)
  }

  /** The contract of `TransformSql` pins its result exactly: any statement
      with the first statement's skeleton and its renamed leaves is the result. */
  lemma TransformSqlPinsResult(sql: string, rawTableName: string, columnNameMap: Entries, parse: Parser, t: Select)
    requires TransformSql(sql, rawTableName, columnNameMap, parse).Success?
    requires EraseSelect(t) == EraseSelect(parse(sql).value[0])
    requires LeavesOfSelect(t) == MapSeq(LeafRenamer(RenamingFor(rawTableName, columnNameMap)), LeavesOfSelect(parse(sql).value[0]))
    ensures t == TransformSql(sql, rawTableName, columnNameMap, parse).value
  {
    SelectDetermined(t, TransformSql(sql, rawTableName, columnNameMap, parse).value);
  }

  /** Statements after the first never influence the rewrite. */
  lemma TransformIgnoresLaterStatements(
    sql1: string, sql2: string, rawTableName: string, columnNameMap: Entries,
    parse1: Parser, parse2: Parser, first: Select, rest1: seq<Select>, rest2: seq<Select>)
    requires parse1(sql1) == Success([first] + rest1)
    requires parse2(sql2) == Success([first] + rest2)
    ensures TransformSql(sql1, rawTableName, columnNameMap, parse1) == TransformSql(sql2, rawTableName, columnNameMap, parse2)
  {
  }

  /** For a non-empty query, extracting columns and rewriting succeed on the
      same inputs, and the rewritten statement projects as many columns as
      were extracted, in the same order, with the same aliases and the same
      expression shapes. */
  lemma ColumnsAgreeWithTransform(sql: string, rawTableName: string, columnNameMap: Entries, parse: Parser)
    requires sql != ""
    ensures GetColumnsFromQuery(Some(sql), parse).Success? <==> TransformSql(sql, rawTableName, columnNameMap, parse).Success?
    ensures TransformSql(sql, rawTableName, columnNameMap, parse).Success? ==>
      var extracted := GetColumnsFromQuery(Some(sql), parse).value;
      var projected := TransformSql(sql, rawTableName, columnNameMap, parse).value.columns;
      && |projected| == |extracted|
      && forall i :: 0 <= i < |extracted| ==>
           projected[i].alias == extracted[i].alias && EraseExpr(projected[i].expr) == EraseExpr(extracted[i].expr)
  {
    var t := TransformSql(sql, rawTableName, columnNameMap, parse);
    if t.Success? {
      var first := parse(sql).value[0];
      ProjectionPreserved(RenamingFor(rawTableName, columnNameMap), first);
    }
  }

  /** A column reference whose name is the folded form of a key, with the
      value the fold kept for it non-empty, is renamed to that value and keeps
      its qualifier. */
  lemma RefHit(columnNameMap: Entries, i: int, rawTableName: string, qualifier: Option<string>)
    requires 0 <= i < |columnNameMap|
    requires LastOfFold(columnNameMap, i)
    requires columnNameMap[i].1 != ""
    ensures RemapExpr(RenamingFor(rawTableName, columnNameMap), Ref(qualifier, Lower(columnNameMap[i].0)))
         == Ref(qualifier, columnNameMap[i].1)
  {
  }

  /** A column reference whose name no key folds to comes out unchanged. */
  lemma RefMissAbsent(columnNameMap: Entries, rawTableName: string, qualifier: Option<string>, name: string)
    requires forall i :: 0 <= i < |columnNameMap| ==> Lower(columnNameMap[i].0) != name
    ensures RemapExpr(RenamingFor(rawTableName, columnNameMap), Ref(qualifier, name)) == Ref(qualifier, name)
  {
  }

  /** A column reference whose folded key kept the empty string comes out
      unchanged: the empty string is falsy, so the lookup counts as a miss. */
  lemma RefMissEmptyValue(columnNameMap: Entries, i: int, rawTableName: string, qualifier: Option<string>)
    requires 0 <= i < |columnNameMap|
    requires LastOfFold(columnNameMap, i)
    requires columnNameMap[i].1 == ""
    ensures RemapExpr(RenamingFor(rawTableName, columnNameMap), Ref(qualifier, Lower(columnNameMap[i].0)))
         == Ref(qualifier, Lower(columnNameMap[i].0))
  {
  }

  /** A column reference is renamed exactly when the last entry folding to
      its name carries a non-empty value. */
  lemma RefRenamedOnlyByLastNonEmpty(columnNameMap: Entries, rawTableName: string, qualifier: Option<string>, name: string)
    ensures RemapExpr(RenamingFor(rawTableName, columnNameMap), Ref(qualifier, name)) != Ref(qualifier, name) ==>
      exists i :: 0 <= i < |columnNameMap| && Lower(columnNameMap[i].0) == name && LastOfFold(columnNameMap, i) &&
        columnNameMap[i].1 != "" &&
        RemapExpr(RenamingFor(rawTableName, columnNameMap), Ref(qualifier, name)) == Ref(qualifier, columnNameMap[i].1)
  {
    var m := FoldKeys(columnNameMap);
    if Hits(m, name) {
      var i := LastFolding(columnNameMap, name);
      assert m[name] == columnNameMap[i].1;
    }
  }

  /** The index of the last entry whose key folds to `k`. */
  function LastFolding(entries: Entries, k: string): (i: int)
    requires exists j :: 0 <= j < |entries| && Lower(entries[j].0) == k
    ensures 0 <= i < |entries| && Lower(entries[i].0) == k && LastOfFold(entries, i)
    decreases |entries|
  {
    var n := |entries| - 1;
    if Lower(entries[n].0) == k then n
    else
      var prefix := entries[..n];
      assert exists j :: 0 <= j < |prefix| && Lower(prefix[j].0) == k by {
        var j :| 0 <= j < |entries| && Lower(entries[j].0) == k;
        assert j < n && prefix[j] == entries[j];
      }
      var i := LastFolding(prefix, k);
      assert prefix[i] == entries[i];
      i
  }

  /** The lookup uses the reference's name as written, while every key was
      lower-cased: a name holding a capital letter never hits. */
  lemma CapitalizedRefNeverHits(columnNameMap: Entries, rawTableName: string, qualifier: Option<string>, name: string)
    requires !NoUpper(name)
    ensures RemapExpr(RenamingFor(rawTableName, columnNameMap), Ref(qualifier, name)) == Ref(qualifier, name)
  {
  }
}
