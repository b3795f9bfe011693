/** The assembled table of table.go and its construction by DeclareTable
    (xql.go). */
module Tables {
  import opened Wrappers
  import opened Assoc
  import opened SchemaTypes

  /** The mapped Go value a table is declared from. Each optional part is
      present exactly when the value implements the matching interface:
      `ignored` is what Ignore() returns (TableIgnored), `constrained` and
      `indexed` are the composite constraints and indexes built from what
      Constraints() and Indexes() return (TableConstrainted, TableIndexed). */
  datatype Entity = Entity(
    typeName: string,
    tableName: string,
    ignored: Option<seq<string>>,
    constrained: Option<seq<Constraint>>,
    indexed: Option<seq<Index>>)

  /** The three lookup maps of a table key columns by these names. */
  datatype Key = ByElemName | ByFieldName | ByJtag

  function KeyOf(c: Column, key: Key): string
  {
    match key
    case ByElemName => c.info.elemName
    case ByFieldName => c.info.fieldName
    case ByJtag => c.info.jtag
  }

  /** The (name, column) insertions DeclareTable makes, in column order. */
  function Keyed(cs: seq<Column>, key: Key): (ps: seq<(string, Column)>)
    ensures |ps| == |cs|
    ensures forall k :: 0 <= k < |cs| ==> ps[k] == (KeyOf(cs[k], key), cs[k])
  {
    seq(|cs|, k requires 0 <= k < |cs| => (KeyOf(cs[k], key), cs[k]))
  }

  /** The lookup map over `cs`: a later column with the same name wins. */
  function LookupMap(cs: seq<Column>, key: Key): map<string, Column>
  {
    FromPairs(Keyed(cs, key))
  }

  /** The columns flagged as primary key, in column order. */
  function PrimaryKeysOf(cs: seq<Column>): (pks: seq<Column>)
    ensures |pks| <= |cs|
    ensures forall k :: 0 <= k < |pks| ==> pks[k].info.primaryKey
  {
    if cs == [] then []
    else PrimaryKeysOf(cs[..|cs| - 1]) + (if cs[|cs| - 1].info.primaryKey then [cs[|cs| - 1]] else [])
  }

  /** The skip list handed to the column builder (xql.go:19-22). */
  function Skips(e: Entity): seq<string>
  {
    if e.ignored.Some? then e.ignored.value else []
  }

  class Table {
    var columns: seq<Column>
    var constraints: seq<Constraint>
    var indexes: seq<Index>
    var primaryKeys: seq<Column>
    var mColumns: map<string, Column>
    var xColumns: map<string, Column>
    var jColumns: map<string, Column>
    var entity: Entity
    var schema: string

    /** The lookup maps and the primary keys agree with the column list. */
    ghost predicate Indexed()
      reads this
    {
      mColumns == LookupMap(columns, ByElemName)
      && xColumns == LookupMap(columns, ByFieldName)
      && jColumns == LookupMap(columns, ByJtag)
      && primaryKeys == PrimaryKeysOf(columns)
    }

    /** DeclareTable (xql.go:18-60). The columns come from the column builder,
        given the entity's skip list; the schema is the first optional
        argument, if any. */
    constructor Declare(entity: Entity, makeColumns: seq<string> -> seq<Column>, schema: seq<string>)
      ensures this.entity == entity
      ensures columns == makeColumns(Skips(entity))
      ensures Indexed()
      ensures this.schema == if |schema| > 0 then schema[0] else ""
      ensures constraints == if entity.constrained.Some? then entity.constrained.value else []
      ensures indexes == if entity.indexed.Some? then entity.indexed.value else []
    {
      var skips: seq<string> := [];
      if entity.ignored.Some? {
        skips := entity.ignored.value;
      }
      var cols := makeColumns(skips);
      var x: map<string, Column> := map[];
      var j: map<string, Column> := map[];
      var m: map<string, Column> := map[];
      var i := 0;
      while i < |cols|
        invariant 0 <= i <= |cols|
        invariant x == LookupMap(cols[..i], ByFieldName)
        invariant m == LookupMap(cols[..i], ByElemName)
        invariant j == LookupMap(cols[..i], ByJtag)
      {
        x, m, j := IndexStep(cols, i, x, m, j);
        i := i + 1;
      }
      assert cols[..i] == cols;
      var sch := "";
      if |schema| > 0 {
        sch := schema[0];
      }
      var pks: seq<Column> := [];
      i := 0;
      while i < |cols|
        invariant 0 <= i <= |cols|
        invariant pks == PrimaryKeysOf(cols[..i])
      {
        assert cols[..i + 1][..i] == cols[..i];
        if cols[i].info.primaryKey {
          pks := pks + [cols[i]];
        }
        i := i + 1;
      }
      assert cols[..i] == cols;
      var cons: seq<Constraint> := [];
      if entity.constrained.Some? {
        cons := cons + entity.constrained.value;
      }
      var idxs: seq<Index> := [];
      if entity.indexed.Some? {
        idxs := idxs + entity.indexed.value;
      }
      this.entity := entity;
      columns := cols;
      xColumns := x;
      jColumns := j;
      mColumns := m;
      this.schema := sch;
      primaryKeys := pks;
      constraints := cons;
      indexes := idxs;
    }

    /** table.go:85-90: the base name, qualified by the schema when one is set. */
    function TableName(): (n: string)
      reads this
      ensures schema == "" ==> n == BaseTableName()
      ensures schema != "" ==> n == schema + "." + BaseTableName()
    {
      if schema != "" then schema + "." + entity.tableName else entity.tableName
    }

    /** table.go:92-94: the entity's own name, never qualified. */
    function BaseTableName(): (n: string)
      reads this
      ensures n == entity.tableName
    {
      entity.tableName
    }

    // table.go:96-110: the stored lists, as they are.

    function GetColumns(): (r: seq<Column>)
      reads this
      ensures r == columns
    {
      columns
    }

    function GetConstraints(): (r: seq<Constraint>)
      reads this
      ensures r == constraints
    {
      constraints
    }

    function GetIndexes(): (r: seq<Index>)
      reads this
      ensures r == indexes
    {
      indexes
    }

    /** On a declared table these are the columns flagged as primary key,
        in column order, each as often as the column list holds it. */
    function GetPrimaryKeys(): (r: seq<Column>)
      reads this
      ensures r == primaryKeys
      ensures Indexed() ==> r == PrimaryKeysOf(columns)
      ensures Indexed() ==> forall c :: multiset(r)[c] == if c.info.primaryKey then multiset(columns)[c] else 0
    {
      PrimaryKeysMultiset(columns);
      primaryKeys
    }

    /** table.go:112-114: only the schema changes. */
    method SetSchema(s: string)
      modifies this
      ensures schema == s
      ensures columns == old(columns) && constraints == old(constraints) && indexes == old(indexes)
      ensures primaryKeys == old(primaryKeys) && entity == old(entity)
      ensures mColumns == old(mColumns) && xColumns == old(xColumns) && jColumns == old(jColumns)
      ensures old(Indexed()) ==> Indexed()
    {
      schema := s;
    }

    /** table.go:116-118. */
    function Schema(): (s: string)
      reads this
      ensures s == schema
    {
      schema
    }

    /** table.go:120-131: the name is looked up by element name, then by field
        name, then by JSON tag. */
    function GetColumn(name: string): (r: Option<Column>)
      reads this
      ensures r.Some? <==> name in mColumns || name in xColumns || name in jColumns
      ensures name in mColumns ==> r == Some(mColumns[name])
      ensures name !in mColumns && name in xColumns ==> r == Some(xColumns[name])
      ensures name !in mColumns && name !in xColumns && name in jColumns ==> r == Some(jColumns[name])
    {
      if name in mColumns then Some(mColumns[name])
      else if name in xColumns then Some(xColumns[name])
      else if name in jColumns then Some(jColumns[name])
      else None
    }
  }

  /** One round of the lookup-map loop of DeclareTable (xql.go:30-34). */
  method IndexStep(cols: seq<Column>, i: nat, x: map<string, Column>, m: map<string, Column>, j: map<string, Column>)
    returns (x': map<string, Column>, m': map<string, Column>, j': map<string, Column>)
    requires i < |cols|
    requires x == LookupMap(cols[..i], ByFieldName)
    requires m == LookupMap(cols[..i], ByElemName)
    requires j == LookupMap(cols[..i], ByJtag)
    ensures x' == LookupMap(cols[..i + 1], ByFieldName)
    ensures m' == LookupMap(cols[..i + 1], ByElemName)
    ensures j' == LookupMap(cols[..i + 1], ByJtag)
  {
    var f := cols[i];
    assert cols[..i + 1] == cols[..i] + [f];
    LookupMapSnoc(cols[..i], f, ByFieldName);
    LookupMapSnoc(cols[..i], f, ByElemName);
    LookupMapSnoc(cols[..i], f, ByJtag);
    x' := x[f.info.fieldName := f];
    m' := m[f.info.elemName := f];
    j' := j[f.info.jtag := f];
  }

  lemma LookupMapSnoc(cs: seq<Column>, c: Column, key: Key)
    ensures LookupMap(cs + [c], key) == LookupMap(cs, key)[KeyOf(c, key) := c]
  {
    var ps := Keyed(cs + [c], key);
    assert ps[..|cs|] == Keyed(cs, key);
  }

  /** A lookup map holds exactly the names of the columns, and maps each name
      to the last column that carries it (xql.go:26-34). */
  lemma LookupMapMeaning(cs: seq<Column>, key: Key, i: nat)
    requires i < |cs|
    ensures KeyOf(cs[i], key) in LookupMap(cs, key)
    ensures (forall j :: i < j < |cs| ==> KeyOf(cs[j], key) != KeyOf(cs[i], key)) ==>
      LookupMap(cs, key)[KeyOf(cs[i], key)] == cs[i]
  {
    var ps := Keyed(cs, key);
    FromPairsKeys(ps, KeyOf(cs[i], key));
    assert ps[i].0 == KeyOf(cs[i], key);
    if forall j :: i < j < |cs| ==> KeyOf(cs[j], key) != KeyOf(cs[i], key) {
      FromPairsLastWins(ps, i);
    }
  }

  /** Every column a lookup map holds is one of the table's columns. */
  lemma {:induction false} LookupMapValues(cs: seq<Column>, key: Key, name: string)
    requires name in LookupMap(cs, key)
    ensures LookupMap(cs, key)[name] in cs && KeyOf(LookupMap(cs, key)[name], key) == name
  {
    if cs != [] {
      var init := cs[..|cs| - 1];
      assert Keyed(cs, key)[..|cs| - 1] == Keyed(init, key);
      if name != KeyOf(cs[|cs| - 1], key) {
        LookupMapValues(init, key, name);
      }
    }
  }

  /** The primary keys are exactly the flagged columns, each as often as in
      the column list (xql.go:43-47). */
  lemma PrimaryKeysMultiset(cs: seq<Column>)
    ensures forall c :: multiset(PrimaryKeysOf(cs))[c] == if c.info.primaryKey then multiset(cs)[c] else 0
  {
    forall c {
      PrimaryKeysExact(cs, c);
    }
  }

  lemma {:induction false} PrimaryKeysExact(cs: seq<Column>, c: Column)
    ensures multiset(PrimaryKeysOf(cs))[c] == if c.info.primaryKey then multiset(cs)[c] else 0
  {
    if cs != [] {
      var init := cs[..|cs| - 1];
      PrimaryKeysExact(init, c);
      assert cs == init + [cs[|cs| - 1]];
    }
  }

  /** A name that resolves, resolves to a column of the table that carries
      that name under one of the three keys (table.go:120-131). */
  lemma GetColumnFinds(t: Table, name: string)
    requires t.Indexed()
    ensures t.GetColumn(name).Some? ==> t.GetColumn(name).value in t.columns
    ensures t.GetColumn(name).Some? ==>
      var c := t.GetColumn(name).value;
      c.info.elemName == name || c.info.fieldName == name || c.info.jtag == name
  {
    if name in t.mColumns {
      LookupMapValues(t.columns, ByElemName, name);
    } else if name in t.xColumns {
      LookupMapValues(t.columns, ByFieldName, name);
    } else if name in t.jColumns {
      LookupMapValues(t.columns, ByJtag, name);
    }
  }

  /** Every column can be found under each of its names. */
  lemma GetColumnOfEveryColumn(t: Table, i: nat, key: Key)
    requires t.Indexed() && i < |t.columns|
    ensures t.GetColumn(KeyOf(t.columns[i], key)).Some?
  {
    LookupMapMeaning(t.columns, key, i);
  }
}
