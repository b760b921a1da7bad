/** Worked rewrites of single statements, each pinned to its exact result. */
module Scenarios {
  import opened Wrappers
  import opened Ascii
  import opened Ast
  import opened FoldedMap
  import opened Mapper
  import opened SqlParser

  /** `SELECT <col> FROM <table> WHERE <col> = '<text>'` */
  function FilterQuery(col: string, table: string, text: string): Select
  {
    Select(
      [Column(Ref(None, col), None)],
      [FromTable(TableRef(None, table, None), None)],
      Some(Binary("=", Ref(None, col), StringLit(text))),
      [], [], None, None)
  }

  /** The column and the table are renamed; the string literal that happens
      to equal the internal column name is left alone. */
  lemma TitleExample()
    ensures RemapSelect(RenamingFor("tb_123", [("title", "cl_a4ef")]), FilterQuery("title", "mytable", "cl_a4ef"))
         == FilterQuery("cl_a4ef", "tb_123", "cl_a4ef")
  {
    LowerOfNoUpper("title");
  }

  /** A key written with capitals still matches the lower-case reference the
      parser produces for an unquoted identifier; a reference spelled with
      capitals (a quoted identifier) does not match. */
  lemma CaseFoldingExample()
    ensures RemapSelect(RenamingFor("tb_123", [("Title", "cl_a4ef")]), FilterQuery("title", "mytable", "x"))
         == FilterQuery("cl_a4ef", "tb_123", "x")
    ensures RemapSelect(RenamingFor("tb_123", [("Title", "cl_a4ef")]), FilterQuery("TITLE", "mytable", "x"))
         == FilterQuery("TITLE", "tb_123", "x")
  {
    assert Lower("Title") == "title";
    assert IsUpper("TITLE"[0]);
    CapitalizedRefNeverHits([("Title", "cl_a4ef")], "tb_123", None, "TITLE");
  }

  /** With no mapping the column passes through and only the table changes;
      a key mapped to the empty string behaves as if it were absent. */
  lemma PassThroughExample()
    ensures RemapSelect(RenamingFor("tb_1", []), FilterQuery("unknown_col", "t", "x"))
         == FilterQuery("unknown_col", "tb_1", "x")
    ensures RemapSelect(RenamingFor("tb_1", [("title", "")]), FilterQuery("title", "t", "x"))
         == FilterQuery("title", "tb_1", "x")
  {
  }

  /** Two keys that fold together: the one inserted later wins. */
  lemma CollisionExample()
    ensures FoldKeys([("Title", "a"), ("TITLE", "b")]) == map["title" := "b"]
  {
    assert Lower("Title") == "title";
    assert Lower("TITLE") == "title";
  }
}
