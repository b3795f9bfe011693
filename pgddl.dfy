/** The data-definition half of the Postgres dialect
    (dialects/postgres/postgres.go): inline column constraints, table
    constraints, index statements, Drop and Create. */
module PostgresDdl {
  import opened Wrappers
  import opened Strings
  import opened SchemaTypes
  import opened Tables

  /** escapePGkw, the keyword quoting the dialect applies to names. Its body
      is not part of this model, so every statement is stated for any
      quoting function. */
  type Escaper = string -> string

  /** The storage names of some columns, in order. */
  function FieldNames(cs: seq<ColumnInfo>): (r: seq<string>)
    ensures |r| == |cs| && forall k :: 0 <= k < |cs| ==> r[k] == cs[k].fieldName
  {
    seq(|cs|, k requires 0 <= k < |cs| => cs[k].fieldName)
  }

  /** The referential actions, each present only when set. */
  function OnDeleteText(c: Constraint): string
  {
    if c.onDelete != "" then "ON DELETE " + c.onDelete else ""
  }

  function OnUpdateText(c: Constraint): string
  {
    if c.onUpdate != "" then "ON UPDATE " + c.onUpdate else ""
  }

  // ---- makeInlineConstraint (postgres.go:73-111) ----

  /** The REFERENCES clause of an inline foreign key. The statement is split
      on '.': with more than one piece, the last piece is the referenced
      column and the others, joined again, the referenced table. */
  function InlineReferences(esc: Escaper, c: Constraint): string
  {
    var xs := Split(c.statement, '.');
    if |xs| > 1 then
      "REFERENCES " + Join(xs[..|xs| - 1], ".") + " (" + esc(xs[|xs| - 1]) + ") " + OnUpdateText(c) + " " + OnDeleteText(c)
    else "REFERENCES " + xs[0] + " " + OnUpdateText(c) + " " + OnDeleteText(c)
  }

  /** The text one column constraint adds inline, if any. */
  function InlinePiece(esc: Escaper, c: Constraint): Option<string>
  {
    if c.kind == ConstraintNotNull then Some("NOT NULL")
    else if c.kind == ConstraintUnique then Some("UNIQUE")
    else if c.kind == ConstraintCheck then Some("CHECK (" + c.statement + ")")
    else if c.kind == ConstraintForeignKey then Some(InlineReferences(esc, c))
    else if c.kind == ConstraintPrimaryKey then Some("PRIMARY KEY")
    else None
  }

  /** The pieces of a column's constraint list, in list order. */
  function InlinePieces(esc: Escaper, cs: seq<Constraint>): (r: seq<string>)
    ensures |r| <= |cs|
  {
    if cs == [] then []
    else InlinePieces(esc, cs[..|cs| - 1]) + ToSeq(InlinePiece(esc, cs[|cs| - 1]))
  }

  /** What makeInlineConstraint returns: the pieces separated by spaces. */
  function InlineConstraint(esc: Escaper, cs: seq<Constraint>): string
  {
    Join(InlinePieces(esc, cs), " ")
  }

  method MakeInlineConstraint(esc: Escaper, cs: seq<Constraint>) returns (s: string)
    ensures s == InlineConstraint(esc, cs)
  {
    var pieces: seq<string> := [];
    var i := 0;
    while i < |cs|
      invariant 0 <= i <= |cs|
      invariant pieces == InlinePieces(esc, cs[..i])
    {
      var x := cs[i];
      assert cs[..i + 1][..i] == cs[..i];
      if x.kind == ConstraintNotNull {
        pieces := pieces + ["NOT NULL"];
      } else if x.kind == ConstraintUnique {
        pieces := pieces + ["UNIQUE"];
      } else if x.kind == ConstraintCheck {
        pieces := pieces + ["CHECK (" + x.statement + ")"];
      } else if x.kind == ConstraintForeignKey {
        var onDelete := "";
        var onUpdate := "";
        if x.onDelete != "" {
          onDelete := "ON DELETE " + x.onDelete;
        }
        if x.onUpdate != "" {
          onUpdate := "ON UPDATE " + x.onUpdate;
        }
        var xs := Split(x.statement, '.');
        if |xs| > 1 {
          var tt := Join(xs[..|xs| - 1], ".");
          var tc := xs[|xs| - 1];
          pieces := pieces + ["REFERENCES " + tt + " (" + esc(tc) + ") " + onUpdate + " " + onDelete];
        } else {
          pieces := pieces + ["REFERENCES " + xs[0] + " " + onUpdate + " " + onDelete];
        }
      } else if x.kind == ConstraintPrimaryKey {
        pieces := pieces + ["PRIMARY KEY"];
      }
      i := i + 1;
    }
    assert cs[..i] == cs;
    if |pieces| < 1 {
      return "";
    }
    return Join(pieces, " ");
  }

  /** An inline foreign key splits its statement at the LAST '.': what is
      before it names the table, what is after it the column. */
  lemma InlineForeignKeyLastDot(esc: Escaper, c: Constraint, table: string, column: string)
    requires c.kind == ConstraintForeignKey && c.statement == table + "." + column && '.' !in column
    ensures InlinePiece(esc, c) == Some("REFERENCES " + table + " (" + esc(column) + ") " + OnUpdateText(c) + " " + OnDeleteText(c))
  {
    SplitAround(table, '.', column);
    SplitNoSep(column, '.');
    var xs := Split(c.statement, '.');
    assert xs == Split(table, '.') + [column];
    assert xs[..|xs| - 1] == Split(table, '.');
    JoinSplit(table, '.');
  }

  /** A statement without a '.' is printed whole, with no column list. */
  lemma InlineForeignKeyNoDot(esc: Escaper, c: Constraint)
    requires c.kind == ConstraintForeignKey && '.' !in c.statement
    ensures InlinePiece(esc, c) == Some("REFERENCES " + c.statement + " " + OnUpdateText(c) + " " + OnDeleteText(c))
  {
    SplitNoSep(c.statement, '.');
  }

  /** Inline pieces follow the column's constraint list: the pieces of a
      concatenation are the pieces of each part, in order. */
  lemma {:induction false} InlinePiecesAppend(esc: Escaper, a: seq<Constraint>, b: seq<Constraint>)
    ensures InlinePieces(esc, a + b) == InlinePieces(esc, a) + InlinePieces(esc, b)
    decreases |b|
  {
    if b == [] {
      assert a + b == a;
    } else {
      var b' := b[..|b| - 1];
      assert (a + b)[..|a + b| - 1] == a + b';
      InlinePiecesAppend(esc, a, b');
    }
  }

  /** Only exclusion constraints, and kinds outside the named ones, are left
      out of a column definition. */
  lemma InlineDropsOnly(esc: Escaper, c: Constraint)
    ensures InlinePieces(esc, [c]) == [] <==>
      !(c.kind in {ConstraintNotNull, ConstraintUnique, ConstraintCheck, ConstraintForeignKey, ConstraintPrimaryKey})
  {
    assert [c][..0] == [];
  }

  // ---- makeConstraints (postgres.go:113-147) ----

  /** The name a table constraint is given, before its kind suffix:
      the base table name and the field names, joined by '_'. */
  function ConstraintName(base: string, c: Constraint): string
  {
    base + "_" + Join(FieldNames(c.columns), "_")
  }

  /** The suffix each kind of table constraint carries in its name. */
  function ConstraintSuffix(kind: uint8): string
  {
    if kind == ConstraintUnique then "_unique"
    else if kind == ConstraintCheck then "_check"
    else if kind == ConstraintExclude then "_exclude"
    else if kind == ConstraintForeignKey then "_fkey"
    else if kind == ConstraintPrimaryKey then "_pkey"
    else ""
  }

  /** The table-level definition of one constraint, if its kind has one. */
  function TablePiece(esc: Escaper, base: string, c: Constraint): Option<string>
  {
    var fieldStr := Join(FieldNames(c.columns), ",");
    var name := ConstraintName(base, c);
    if c.kind == ConstraintUnique then Some("CONSTRAINT " + name + "_unique UNIQUE (" + esc(fieldStr) + ")")
    else if c.kind == ConstraintCheck then Some("CONSTRAINT " + name + "_check CHECK (" + c.statement + ")")
    else if c.kind == ConstraintExclude then Some("CONSTRAINT " + name + "_exclude EXCLUDE USING " + c.statement)
    else if c.kind == ConstraintForeignKey then
      Some("CONSTRAINT " + name + "_fkey FOREIGN KEY (" + esc(fieldStr) + ") REFERENCES " + c.statement + " "
        + OnUpdateText(c) + " " + OnDeleteText(c))
    else if c.kind == ConstraintPrimaryKey then Some("CONSTRAINT " + name + "_pkey PRIMARY KEY (" + esc(fieldStr) + ")")
    else None
  }

  function TablePieces(esc: Escaper, base: string, cs: seq<Constraint>): (r: seq<string>)
    ensures |r| <= |cs|
  {
    if cs == [] then []
    else TablePieces(esc, base, cs[..|cs| - 1]) + ToSeq(TablePiece(esc, base, cs[|cs| - 1]))
  }

  method MakeConstraints(esc: Escaper, base: string, cs: seq<Constraint>) returns (ret: seq<string>)
    ensures ret == TablePieces(esc, base, cs)
  {
    ret := [];
    var i := 0;
    while i < |cs|
      invariant 0 <= i <= |cs|
      invariant ret == TablePieces(esc, base, cs[..i])
    {
      var x := cs[i];
      assert cs[..i + 1][..i] == cs[..i];
      var fields: seq<string> := [];
      var j := 0;
      while j < |x.columns|
        invariant 0 <= j <= |x.columns|
        invariant fields == FieldNames(x.columns[..j])
      {
        fields := fields + [x.columns[j].fieldName];
        j := j + 1;
      }
      assert x.columns[..j] == x.columns;
      var fieldStr := Join(fields, ",");
      var nameStr := base + "_" + Join(fields, "_");
      if x.kind == ConstraintUnique {
        ret := ret + ["CONSTRAINT " + nameStr + "_unique UNIQUE (" + esc(fieldStr) + ")"];
      } else if x.kind == ConstraintCheck {
        ret := ret + ["CONSTRAINT " + nameStr + "_check CHECK (" + x.statement + ")"];
      } else if x.kind == ConstraintExclude {
        ret := ret + ["CONSTRAINT " + nameStr + "_exclude EXCLUDE USING " + x.statement];
      } else if x.kind == ConstraintForeignKey {
        var onDelete := "";
        var onUpdate := "";
        if x.onDelete != "" {
          onDelete := "ON DELETE " + x.onDelete;
        }
        if x.onUpdate != "" {
          onUpdate := "ON UPDATE " + x.onUpdate;
        }
        ret := ret + ["CONSTRAINT " + nameStr + "_fkey FOREIGN KEY (" + esc(fieldStr) + ") REFERENCES " + x.statement + " "
          + onUpdate + " " + onDelete];
      } else if x.kind == ConstraintPrimaryKey {
        ret := ret + ["CONSTRAINT " + nameStr + "_pkey PRIMARY KEY (" + esc(fieldStr) + ")"];
      }
      i := i + 1;
    }
    assert cs[..i] == cs;
  }

  /** Every table constraint is named `<base>_<f1_f2..>_<kind>`; NOT NULL
      and unknown kinds have no table-level form. */
  lemma TablePieceNamed(esc: Escaper, base: string, c: Constraint)
    ensures TablePiece(esc, base, c).Some? <==>
      c.kind in {ConstraintUnique, ConstraintCheck, ConstraintExclude, ConstraintForeignKey, ConstraintPrimaryKey}
    ensures TablePiece(esc, base, c).Some? ==>
      HasPrefix(TablePiece(esc, base, c).value, "CONSTRAINT " + ConstraintName(base, c) + ConstraintSuffix(c.kind) + " ")
  {
    var a := "CONSTRAINT " + ConstraintName(base, c);
    var fieldStr := Join(FieldNames(c.columns), ",");
    if c.kind == ConstraintUnique {
      KindPrefix(a, "_unique", "_unique UNIQUE (");
      PrefixOfAppend(a + "_unique UNIQUE (", esc(fieldStr));
      PrefixTrans(a + "_unique UNIQUE (" + esc(fieldStr), a + "_unique UNIQUE (", a + "_unique" + " ");
      PrefixOfAppend(a + "_unique UNIQUE (" + esc(fieldStr), ")");
      PrefixTrans(a + "_unique UNIQUE (" + esc(fieldStr) + ")", a + "_unique UNIQUE (" + esc(fieldStr), a + "_unique" + " ");
    } else if c.kind == ConstraintCheck {
      KindPrefix(a, "_check", "_check CHECK (");
      PrefixOfAppend(a + "_check CHECK (", c.statement);
      PrefixTrans(a + "_check CHECK (" + c.statement, a + "_check CHECK (", a + "_check" + " ");
      PrefixOfAppend(a + "_check CHECK (" + c.statement, ")");
      PrefixTrans(a + "_check CHECK (" + c.statement + ")", a + "_check CHECK (" + c.statement, a + "_check" + " ");
    } else if c.kind == ConstraintExclude {
      KindPrefix(a, "_exclude", "_exclude EXCLUDE USING ");
      PrefixOfAppend(a + "_exclude EXCLUDE USING ", c.statement);
      PrefixTrans(a + "_exclude EXCLUDE USING " + c.statement, a + "_exclude EXCLUDE USING ", a + "_exclude" + " ");
    } else if c.kind == ConstraintForeignKey {
      var s0 := a + "_fkey FOREIGN KEY (";
      KindPrefix(a, "_fkey", "_fkey FOREIGN KEY (");
      var s1 := s0 + esc(fieldStr);
      var s2 := s1 + ") REFERENCES ";
      var s3 := s2 + c.statement;
      var s4 := s3 + " ";
      var s5 := s4 + OnUpdateText(c);
      var s6 := s5 + " ";
      var s7 := s6 + OnDeleteText(c);
      PrefixOfAppend(s6, OnDeleteText(c));
      PrefixOfAppend(s5, " ");
      PrefixOfAppend(s4, OnUpdateText(c));
      PrefixOfAppend(s3, " ");
      PrefixOfAppend(s2, c.statement);
      PrefixOfAppend(s1, ") REFERENCES ");
      PrefixOfAppend(s0, esc(fieldStr));
      PrefixTrans(s1, s0, a + "_fkey" + " ");
      PrefixTrans(s2, s1, a + "_fkey" + " ");
      PrefixTrans(s3, s2, a + "_fkey" + " ");
      PrefixTrans(s4, s3, a + "_fkey" + " ");
      PrefixTrans(s5, s4, a + "_fkey" + " ");
      PrefixTrans(s6, s5, a + "_fkey" + " ");
      PrefixTrans(s7, s6, a + "_fkey" + " ");
    } else if c.kind == ConstraintPrimaryKey {
      KindPrefix(a, "_pkey", "_pkey PRIMARY KEY (");
      PrefixOfAppend(a + "_pkey PRIMARY KEY (", esc(fieldStr));
      PrefixTrans(a + "_pkey PRIMARY KEY (" + esc(fieldStr), a + "_pkey PRIMARY KEY (", a + "_pkey" + " ");
      PrefixOfAppend(a + "_pkey PRIMARY KEY (" + esc(fieldStr), ")");
      PrefixTrans(a + "_pkey PRIMARY KEY (" + esc(fieldStr) + ")", a + "_pkey PRIMARY KEY (" + esc(fieldStr), a + "_pkey" + " ");
    }
  }

  /** A constraint's literal text starts with its kind suffix and a space. */
  lemma KindPrefix(a: string, suffix: string, lit: string)
    requires HasPrefix(lit, suffix + " ")
    ensures HasPrefix(a + lit, a + suffix + " ")
  {
    PrefixUnder(a, lit, suffix + " ");
    assert a + suffix + " " == a + (suffix + " ");
  }

  /** Table constraint definitions keep the order of the table's list. */
  lemma {:induction false} TablePiecesAppend(esc: Escaper, base: string, a: seq<Constraint>, b: seq<Constraint>)
    ensures TablePieces(esc, base, a + b) == TablePieces(esc, base, a) + TablePieces(esc, base, b)
    decreases |b|
  {
    if b == [] {
      assert a + b == a;
    } else {
      var b' := b[..|b| - 1];
      assert (a + b)[..|a + b| - 1] == a + b';
      TablePiecesAppend(esc, base, a, b');
    }
  }

  // ---- makeIndexes (postgres.go:149-175) ----

  /** The access method clause of an index kind; unknown kinds have none. */
  function IndexMethod(kind: uint8): string
  {
    if kind == IndexBTree then "USING btree"
    else if kind == IndexHash then "USING hash"
    else if kind == IndexBrin then "USING brin"
    else if kind == IndexGist then "USING gist"
    else if kind == IndexSpGist then "USING sp-gist"
    else if kind == IndexGin then "USING gin"
    else ""
  }

  /** One CREATE INDEX statement; the field names are joined by ',' inside
      a single pair of double quotes. */
  function IndexStatement(base: string, i: Index): string
  {
    "CREATE INDEX IF NOT EXISTS " + i.name + " ON " + base + " " + IndexMethod(i.kind)
      + " (\"" + Join(FieldNames(i.columns), ",") + "\");"
  }

  /** One statement per index, in order. */
  function IndexStatements(base: string, idx: seq<Index>): (r: seq<string>)
    ensures |r| == |idx| && forall k :: 0 <= k < |idx| ==> r[k] == IndexStatement(base, idx[k])
  {
    seq(|idx|, k requires 0 <= k < |idx| => IndexStatement(base, idx[k]))
  }

  method MakeIndexes(base: string, idx: seq<Index>) returns (ret: seq<string>)
    ensures ret == IndexStatements(base, idx)
  {
    ret := [];
    var i := 0;
    while i < |idx|
      invariant 0 <= i <= |idx|
      invariant ret == IndexStatements(base, idx[..i])
    {
      var ii := idx[i];
      var fs: seq<string> := [];
      var j := 0;
      while j < |ii.columns|
        invariant 0 <= j <= |ii.columns|
        invariant fs == FieldNames(ii.columns[..j])
      {
        fs := fs + [ii.columns[j].fieldName];
        j := j + 1;
      }
      assert ii.columns[..j] == ii.columns;
      var tp := "";
      if ii.kind == IndexBTree {
        tp := "USING btree";
      } else if ii.kind == IndexHash {
        tp := "USING hash";
      } else if ii.kind == IndexBrin {
        tp := "USING brin";
      } else if ii.kind == IndexGist {
        tp := "USING gist";
      } else if ii.kind == IndexSpGist {
        tp := "USING sp-gist";
      } else if ii.kind == IndexGin {
        tp := "USING gin";
      }
      ret := ret + ["CREATE INDEX IF NOT EXISTS " + ii.name + " ON " + base + " " + tp + " (\"" + Join(fs, ",") + "\");"];
      i := i + 1;
    }
    assert idx[..i] == idx;
  }

  // ---- Drop (postgres.go:179-201) ----

  /** The indexes attached to the columns, column by column. */
  function ColumnIndexes(cols: seq<Column>): (r: seq<Index>)
  {
    if cols == [] then [] else ColumnIndexes(cols[..|cols| - 1]) + cols[|cols| - 1].indexes
  }

  /** Every index of every column is among the column indexes, and nothing else is. */
  lemma {:induction false} ColumnIndexesMembers(cols: seq<Column>, i: Index)
    ensures i in ColumnIndexes(cols) <==> exists j :: 0 <= j < |cols| && i in cols[j].indexes
  {
    if cols != [] {
      var init := cols[..|cols| - 1];
      ColumnIndexesMembers(init, i);
      if exists j :: 0 <= j < |init| && i in init[j].indexes {
        var j :| 0 <= j < |init| && i in init[j].indexes;
        assert cols[j] == init[j];
      }
      if exists j :: 0 <= j < |cols| && i in cols[j].indexes {
        var j :| 0 <= j < |cols| && i in cols[j].indexes;
        if j < |init| {
          assert init[j] == cols[j];
        }
      }
    }
  }

  /** The text placed before each dropped name when dropping is forced. */
  function Forced(force: bool): string
  {
    if force then " IF EXISTS " else ""
  }

  /** The DROP statements: one per column index, then one per table index,
      then the table itself. */
  function DropStatements(t: Table, force: bool): (r: seq<string>)
    reads t
  {
    var idx := ColumnIndexes(t.columns) + t.indexes;
    seq(|idx|, k requires 0 <= k < |idx| => "DROP INDEX " + Forced(force) + idx[k].name + ";")
      + ["DROP TABLE " + Forced(force) + t.TableName() + ";"]
  }

  /** Drop: a missing table is an error; otherwise the statements one per line. */
  function DropSql(t: Table?, force: bool): (r: Result<string>)
    reads t
  {
    if t == null then Error("table can not be nil") else Ok(Join(DropStatements(t, force), "\n"))
  }

  method Drop(t: Table?, force: bool) returns (r: Result<string>)
    ensures r == DropSql(t, force)
  {
    if t == null {
      return Error("table can not be nil");
    }
    var forced := "";
    if force {
      forced := " IF EXISTS ";
    }
    var cols := t.GetColumns();
    var indexes: seq<Index> := [];
    var i := 0;
    while i < |cols|
      invariant 0 <= i <= |cols|
      invariant indexes == ColumnIndexes(cols[..i])
    {
      assert cols[..i + 1][..i] == cols[..i];
      indexes := indexes + cols[i].indexes;
      i := i + 1;
    }
    assert cols[..i] == cols;
    indexes := indexes + t.GetIndexes();
    var statements: seq<string> := [];
    i := 0;
    while i < |indexes|
      invariant 0 <= i <= |indexes|
      invariant |statements| == i
      invariant forall k :: 0 <= k < i ==> statements[k] == "DROP INDEX " + forced + indexes[k].name + ";"
    {
      statements := statements + ["DROP INDEX " + forced + indexes[i].name + ";"];
      i := i + 1;
    }
    statements := statements + ["DROP TABLE " + forced + t.TableName() + ";"];
    assert statements == DropStatements(t, force);
    return Ok(Join(statements, "\n"));
  }

  /** Drop names every index of the table, column indexes before table
      indexes, and ends with the table. */
  lemma DropCovers(t: Table, force: bool)
    ensures |DropStatements(t, force)| == |ColumnIndexes(t.columns)| + |t.indexes| + 1
    ensures DropStatements(t, force)[|DropStatements(t, force)| - 1] == "DROP TABLE " + Forced(force) + t.TableName() + ";"
    ensures forall k :: 0 <= k < |t.indexes| ==>
      DropStatements(t, force)[|ColumnIndexes(t.columns)| + k] == "DROP INDEX " + Forced(force) + t.indexes[k].name + ";"
  {
  }

  // ---- Create (postgres.go:205-228) ----

  /** One column definition: quoted name and type, then the default if one
      is set, then the inline constraints if the column has any. */
  function ColumnDef(esc: Escaper, c: Column): string
  {
    var s := esc(c.info.fieldName) + " " + c.info.typeDefine;
    var s' := if c.info.default.Some? then s + " DEFAULT " + c.info.default.value else s;
    if |c.constraints| > 0 then s' + " " + InlineConstraint(esc, c.constraints) else s'
  }

  function ColumnDefs(esc: Escaper, cols: seq<Column>): (r: seq<string>)
    ensures |r| == |cols| && forall k :: 0 <= k < |cols| ==> r[k] == ColumnDef(esc, cols[k])
  {
    if cols == [] then [] else ColumnDefs(esc, cols[..|cols| - 1]) + [ColumnDef(esc, cols[|cols| - 1])]
  }

  /** The CREATE TABLE statement: the column definitions, then the table
      constraints, separated by ", ". */
  function CreateTable(esc: Escaper, t: Table): string
    reads t
  {
    "CREATE TABLE IF NOT EXISTS " + t.TableName() + " ( "
      + Join(ColumnDefs(esc, t.columns) + TablePieces(esc, t.BaseTableName(), t.constraints), ", ") + " );"
  }

  /** Create: the table statement, then the index statements, one per line. */
  function CreateSql(esc: Escaper, t: Table): string
    reads t
  {
    Join([CreateTable(esc, t)] + IndexStatements(t.BaseTableName(), ColumnIndexes(t.columns) + t.indexes), "\n")
  }

  /** The Go runtime's panic when Create reads the name of a nil table. */
  const NilTablePanic := "runtime error: invalid memory address or nil pointer dereference"

  /** postgres.go:205-230. Unlike Drop, Create does not check for a nil
      table: reading its name panics. */
  method Create(esc: Escaper, t: Table?) returns (r: Result<string>)
    ensures t == null ==> r == Panic(NilTablePanic)
    ensures t != null ==> r == Ok(CreateSql(esc, t))
  {
    if t == null {
      return Panic(NilTablePanic);
    }
    var tableName := t.TableName();
    var createSQL := "CREATE TABLE IF NOT EXISTS " + tableName + " ( ";
    var cols, indexes := CreateColumns(esc, t.GetColumns());
    var tableCons := MakeConstraints(esc, t.BaseTableName(), t.GetConstraints());
    cols := cols + tableCons;
    createSQL := createSQL + Join(cols, ", ") + " );";
    assert createSQL == CreateTable(esc, t);
    indexes := indexes + t.GetIndexes();
    var indexesStrings := MakeIndexes(t.BaseTableName(), indexes);
    r := Ok(Join([createSQL] + indexesStrings, "\n"));
  }

  /** The column loop of Create (postgres.go:209-218): one definition per
      column, and the column indexes collected on the way. */
  method CreateColumns(esc: Escaper, columns: seq<Column>) returns (cols: seq<string>, indexes: seq<Index>)
    ensures cols == ColumnDefs(esc, columns) && indexes == ColumnIndexes(columns)
  {
    indexes := [];
    cols := [];
    var i := 0;
    while i < |columns|
      invariant 0 <= i <= |columns|
      invariant cols == ColumnDefs(esc, columns[..i])
      invariant indexes == ColumnIndexes(columns[..i])
    {
      var c := columns[i];
      assert columns[..i + 1][..i] == columns[..i];
      var colStr := ColumnText(esc, c);
      cols := cols + [colStr];
      indexes := indexes + c.indexes;
      i := i + 1;
    }
    assert columns[..i] == columns;
  }

  /** One column's definition, as the loop body builds it. */
  method ColumnText(esc: Escaper, c: Column) returns (colStr: string)
    ensures colStr == ColumnDef(esc, c)
  {
    colStr := esc(c.info.fieldName) + " " + c.info.typeDefine;
    if c.info.default.Some? {
      colStr := colStr + " DEFAULT " + c.info.default.value;
    }
    if |c.constraints| > 0 {
      var inline := MakeInlineConstraint(esc, c.constraints);
      colStr := colStr + " " + inline;
    }
  }

  /** The table statement comes first and is followed by exactly one
      statement per index: the column indexes, then the table's own. */
  lemma CreateLayout(esc: Escaper, t: Table)
    ensures CreateSql(esc, t) == CreateTable(esc, t) ||
      HasPrefix(CreateSql(esc, t), CreateTable(esc, t) + "\n")
    ensures |IndexStatements(t.BaseTableName(), ColumnIndexes(t.columns) + t.indexes)| == |ColumnIndexes(t.columns)| + |t.indexes|
  {
    var rest := IndexStatements(t.BaseTableName(), ColumnIndexes(t.columns) + t.indexes);
    if rest != [] {
      var tail := Join(rest, "\n");
      JoinCons(CreateTable(esc, t), rest, "\n");
      assert CreateSql(esc, t) == CreateTable(esc, t) + "\n" + tail;
    }
  }

  /** Joining a head in front of a non-empty list puts one separator after it. */
  lemma JoinCons(x: string, parts: seq<string>, sep: string)
    requires parts != []
    ensures Join([x] + parts, sep) == x + sep + Join(parts, sep)
  {
    assert ([x] + parts)[1..] == parts;
  }
}
