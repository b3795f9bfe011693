/** The older Postgres compiler of driver/postgres/postgres.go. It works on
    an earlier table shape, a schema, a name and a map from column name to
    column, and writes names without keyword quoting. */
module LegacyPostgres {
  import opened Wrappers
  import opened Assoc
  import opened Strings
  import opened SchemaTypes
  import opened QueryTypes
  import opened Query
  import PostgresDml

  /** The table of the older API: `columns` is keyed by storage name; a
      column's `elemName` is its PropertyName. */
  datatype LegacyTable = LegacyTable(schema: string, tableName: string, columns: map<string, ColumnInfo>)

  type Compiled = PostgresDml.Compiled

  /** The table name, prefixed by `schema.` when a schema is set. */
  function QualifiedName(t: LegacyTable): (s: string)
    ensures t.schema == "" ==> s == t.tableName
    ensures t.schema != "" ==> s == t.schema + "." + t.tableName
  {
    (if t.schema != "" then t.schema + "." else "") + t.tableName
  }

  method LegacyTableName(t: LegacyTable) returns (s: string)
    ensures s == QualifiedName(t)
  {
    s := "";
    if t.schema != "" {
      s := t.schema + ".";
    }
    s := s + t.tableName;
  }

  // ---- the filter loop (driver/postgres/postgres.go:30-52, 131-153, 164-186) ----

  /** One filter: field names are written as given and no function is ever
      applied to the placeholder. */
  function LegacyClause(f: QueryFilter, first: bool, n: nat): string
  {
    var lead := " " + PostgresDml.Cause(f, first) + " ";
    if f.operator == "" then lead + f.field
    else if f.reversed then lead + PostgresDml.Placeholder(n + 1) + " " + f.operator + " " + f.field
    else lead + f.field + " " + f.operator + " " + PostgresDml.Placeholder(n + 1)
  }

  function LegacyStep(prev: Compiled, f: QueryFilter, first: bool): Compiled
  {
    var text := prev.text + LegacyClause(f, first, prev.n);
    if f.operator != "" then PostgresDml.Compiled(text, prev.args + [f.value], prev.n + 1)
    else PostgresDml.Compiled(text, prev.args, prev.n)
  }

  function LegacyFilters(fs: seq<QueryFilter>, start: Compiled): Compiled
  {
    if fs == [] then start
    else LegacyStep(LegacyFilters(fs[..|fs| - 1], start), fs[|fs| - 1], |fs| == 1)
  }

  /** As in the newer dialect: the arguments are the non-raw filter values
      in order, and the counter moves on by as many. */
  lemma {:induction false} LegacyFiltersArgs(fs: seq<QueryFilter>, start: Compiled)
    ensures LegacyFilters(fs, start).args == start.args + PostgresDml.FilterArgs(fs)
    ensures LegacyFilters(fs, start).n == start.n + |PostgresDml.FilterArgs(fs)|
  {
    if fs != [] {
      var init := fs[..|fs| - 1];
      LegacyFiltersArgs(init, start);
      assert fs == init + [fs[|fs| - 1]];
      PostgresDml.FilterArgsSnoc(init, fs[|fs| - 1]);
    }
  }

  /** The text of a prefix of the filters is a prefix of the text. */
  lemma {:induction false} LegacyFiltersPrefix(fs: seq<QueryFilter>, start: Compiled, k: nat)
    requires k <= |fs|
    ensures HasPrefix(LegacyFilters(fs, start).text, LegacyFilters(fs[..k], start).text)
    decreases |fs| - k
  {
    if k == |fs| {
      assert fs[..k] == fs;
    } else {
      LegacyFiltersPrefix(fs, start, k + 1);
      var shorter := LegacyFilters(fs[..k], start).text;
      var longer := LegacyFilters(fs[..k + 1], start).text;
      assert fs[..k + 1][..k] == fs[..k];
      assert HasPrefix(longer, shorter) by {
        assert longer == shorter + LegacyClause(fs[k], k == 0, LegacyFilters(fs[..k], start).n);
      }
    }
  }

  /** The first filter opens with WHERE. */
  lemma LegacyWhereFirst(fs: seq<QueryFilter>, start: Compiled)
    requires fs != []
    ensures HasPrefix(LegacyFilters(fs, start).text, start.text + " WHERE ")
  {
    LegacyFiltersPrefix(fs, start, 1);
    assert fs[..1][..0] == [];
    var c := LegacyClause(fs[0], true, start.n);
    assert LegacyFilters(fs[..1], start).text == start.text + c;
    assert c[..7] == " WHERE ";
  }

  method LegacyFilterText(f: QueryFilter, first: bool, n: nat) returns (c: string)
    ensures c == LegacyClause(f, first, n)
  {
    var cause := "";
    if f.condition == ConditionAnd {
      cause := "AND";
    } else if f.condition == ConditionOr {
      cause := "OR";
    }
    if first {
      cause := "WHERE";
    }
    if f.operator == "" {
      c := " " + cause + " " + f.field;
    } else if f.reversed {
      c := " " + cause + " " + PostgresDml.Placeholder(n + 1) + " " + f.operator + " " + f.field;
    } else {
      c := " " + cause + " " + f.field + " " + f.operator + " " + PostgresDml.Placeholder(n + 1);
    }
  }

  method LegacyCompileFilters(fs: seq<QueryFilter>, s0: string, n0: nat, args0: seq<Value>)
    returns (s: string, n: nat, args: seq<Value>)
    ensures PostgresDml.Compiled(s, args, n) == LegacyFilters(fs, PostgresDml.Compiled(s0, args0, n0))
  {
    s, n, args := s0, n0, args0;
    var i := 0;
    while i < |fs|
      invariant 0 <= i <= |fs|
      invariant PostgresDml.Compiled(s, args, n) == LegacyFilters(fs[..i], PostgresDml.Compiled(s0, args0, n0))
    {
      var f := fs[i];
      assert fs[..i + 1][..i] == fs[..i];
      var c := LegacyFilterText(f, i == 0, n);
      s := s + c;
      if f.operator != "" {
        n := n + 1;
        args := args + [f.value];
      }
      i := i + 1;
    }
    assert fs[..i] == fs;
  }

  // ---- Create (driver/postgres/postgres.go:14-16) ----

  /** The older Create produces nothing and reports no error. */
  function LegacyCreate(t: LegacyTable): (r: Result<(string, seq<Value>)>)
    ensures r == Ok(("", []))
  {
    Ok(("", []))
  }

  // ---- Select (driver/postgres/postgres.go:19-69) ----

  function LegacyOrderPieces(os: seq<QueryOrder>): seq<string>
  {
    if os == [] then []
    else
      var o := os[|os| - 1];
      LegacyOrderPieces(os[..|os| - 1])
        + (if o.kind == OrderAsc then [o.field + " ASC"] else if o.kind == OrderDesc then [o.field + " DESC"] else [])
  }

  function LegacyOrderClause(os: seq<QueryOrder>): string
  {
    var ps := LegacyOrderPieces(os);
    if |ps| > 0 then " ORDER BY " + Join(ps, ",") else ""
  }

  /** OFFSET and LIMIT come together, and only when both are not negative. */
  function Paging(offset: int, limit: int): string
  {
    if offset >= 0 && limit >= 0 then " OFFSET " + IntToString(offset) + " LIMIT " + IntToString(limit) else ""
  }

  function LegacySelectHead(t: LegacyTable, cols: seq<QueryColumn>): string
  {
    "SELECT " + Join(PostgresDml.ColumnTexts(cols), ",") + " FROM " + QualifiedName(t)
  }

  function LegacySelectSql(t: LegacyTable, cols: seq<QueryColumn>, filters: seq<QueryFilter>,
                           orders: seq<QueryOrder>, offset: int, limit: int): (string, seq<Value>)
  {
    var w := LegacyFilters(filters, PostgresDml.Compiled(LegacySelectHead(t, cols), [], 0));
    (w.text + LegacyOrderClause(orders) + Paging(offset, limit), w.args)
  }

  /** The ORDER BY clause and the paging that follow the filters. */
  method LegacyTail(orders: seq<QueryOrder>, offset: int, limit: int) returns (tail: string)
    ensures tail == LegacyOrderClause(orders) + Paging(offset, limit)
  {
    var sOrders: seq<string> := [];
    var i := 0;
    while i < |orders|
      invariant 0 <= i <= |orders|
      invariant sOrders == LegacyOrderPieces(orders[..i])
    {
      var o := orders[i];
      assert orders[..i + 1][..i] == orders[..i];
      if o.kind == OrderAsc {
        sOrders := sOrders + [o.field + " ASC"];
      } else if o.kind == OrderDesc {
        sOrders := sOrders + [o.field + " DESC"];
      }
      i := i + 1;
    }
    assert orders[..i] == orders;
    tail := "";
    if |sOrders| > 0 {
      tail := " ORDER BY " + Join(sOrders, ",");
    }
    if offset >= 0 && limit >= 0 {
      tail := tail + (" OFFSET " + IntToString(offset) + " LIMIT " + IntToString(limit));
    }
  }

  method LegacySelect(t: LegacyTable, cols: seq<QueryColumn>, filters: seq<QueryFilter>,
                      orders: seq<QueryOrder>, offset: int, limit: int)
    returns (s: string, args: seq<Value>)
    ensures (s, args) == LegacySelectSql(t, cols, filters, orders, offset, limit)
  {
    var colnames: seq<string> := [];
    var i := 0;
    while i < |cols|
      invariant 0 <= i <= |cols|
      invariant colnames == PostgresDml.ColumnTexts(cols[..i])
    {
      colnames := colnames + [ColumnString(cols[i], [])];
      i := i + 1;
    }
    assert cols[..i] == cols;
    var name := LegacyTableName(t);
    s := "SELECT " + Join(colnames, ",") + " FROM " + name;
    var n;
    s, n, args := LegacyCompileFilters(filters, s, 0, []);
    var tail := LegacyTail(orders, offset, limit);
    assert s + tail == s + LegacyOrderClause(orders) + Paging(offset, limit);
    s := s + tail;
  }

  /** The older Select pages only with both bounds set: then it ends with
      OFFSET and LIMIT together; with either negative, neither appears
      after the order clause. */
  lemma LegacyPaging(t: LegacyTable, cols: seq<QueryColumn>, filters: seq<QueryFilter>,
                     orders: seq<QueryOrder>, offset: int, limit: int)
    ensures var w := LegacyFilters(filters, PostgresDml.Compiled(LegacySelectHead(t, cols), [], 0)).text;
      (offset < 0 || limit < 0) ==> LegacySelectSql(t, cols, filters, orders, offset, limit).0 == w + LegacyOrderClause(orders)
    ensures offset >= 0 && limit >= 0 ==>
      PostgresDml.HasSuffix(LegacySelectSql(t, cols, filters, orders, offset, limit).0,
        " OFFSET " + IntToString(offset) + " LIMIT " + IntToString(limit))
    ensures LegacySelectSql(t, cols, filters, orders, offset, limit).1 == PostgresDml.FilterArgs(filters)
  {
    var w := LegacyFilters(filters, PostgresDml.Compiled(LegacySelectHead(t, cols), [], 0)).text;
    LegacyFiltersArgs(filters, PostgresDml.Compiled(LegacySelectHead(t, cols), [], 0));
    if offset >= 0 && limit >= 0 {
      PostgresDml.EndsWith(w, LegacyOrderClause(orders), Paging(offset, limit));
    } else {
      assert Paging(offset, limit) == "";
      assert w + LegacyOrderClause(orders) + "" == w + LegacyOrderClause(orders);
    }
  }

  // ---- Insert (driver/postgres/postgres.go:71-110) ----

  /** Reading a field the value lacks makes reflection panic. */
  const ZeroValuePanic := "reflect: call of reflect.Value.Interface on zero Value"

  /** The (name, value) items of the inserted columns, or the reflection
      panic. With explicit names every known name is inserted, whatever its
      value; without them every column that is not automatic is inserted,
      in the order `keys` enumerates the map. */
  function LegacyItems(t: LegacyTable, obj: Record, names: seq<string>, skipAuto: bool): (r: Result<seq<(string, Value)>>)
    ensures !r.Error?
  {
    if names == [] then Ok([])
    else
      var prev := LegacyItems(t, obj, names[..|names| - 1], skipAuto);
      var n := names[|names| - 1];
      if !prev.Ok? then prev
      else if n !in t.columns || (skipAuto && t.columns[n].auto) then prev
      else if t.columns[n].elemName !in obj.fields then Panic(ZeroValuePanic)
      else Ok(prev.value + [(n, obj.fields[t.columns[n].elemName])])
  }

  function LegacyInsertSql(t: LegacyTable, obj: Record, col: seq<string>, keys: seq<string>): Result<(string, seq<Value>)>
  {
    var items := if |col| > 0 then LegacyItems(t, obj, col, false) else LegacyItems(t, obj, keys, true);
    if !items.Ok? then Panic(items.msg)
    else
      var its := items.value;
      Ok(("INSERT INTO " + QualifiedName(t) + " (" + Join(Names(its), ",") + ") VALUES("
        + Join(PostgresDml.Placeholders(|its|), ",") + ")", PostgresDml.ItemValues(its)))
  }

  function Names(items: seq<(string, Value)>): (r: seq<string>)
    ensures |r| == |items| && forall k :: 0 <= k < |items| ==> r[k] == items[k].0
  {
    seq(|items|, k requires 0 <= k < |items| => items[k].0)
  }

  /** The older Insert; `keys` is the order in which Go's `range` visits the
      column map. */
  method LegacyInsert(t: LegacyTable, obj: Record, col: seq<string>, keys: seq<string>) returns (r: Result<(string, seq<Value>)>)
    requires Enumerates(keys, t.columns)
    ensures r == LegacyInsertSql(t, obj, col, keys)
  {
    var names := if |col| > 0 then col else keys;
    var skipAuto := |col| == 0;
    var cols: seq<string> := [];
    var vals: seq<string> := [];
    var args: seq<Value> := [];
    var i: nat := 0;
    var k := 0;
    while k < |names|
      invariant 0 <= k <= |names|
      invariant LegacyItems(t, obj, names[..k], skipAuto).Ok?
      invariant var its := LegacyItems(t, obj, names[..k], skipAuto).value;
        i == |its| && cols == Names(its) && vals == PostgresDml.Placeholders(i) && args == PostgresDml.ItemValues(its)
    {
      var n := names[k];
      ghost var its := LegacyItems(t, obj, names[..k], skipAuto).value;
      assert names[..k + 1][..k] == names[..k];
      if n in t.columns && !(skipAuto && t.columns[n].auto) {
        var v := t.columns[n];
        if v.elemName !in obj.fields {
          LegacyItemsStopAt(t, obj, names, skipAuto, k);
          return Panic(ZeroValuePanic);
        }
        assert LegacyItems(t, obj, names[..k + 1], skipAuto) == Ok(its + [(n, obj.fields[v.elemName])]);
        ItemsSnocViews(its, (n, obj.fields[v.elemName]));
        i := i + 1;
        cols := cols + [n];
        vals := vals + [PostgresDml.Placeholder(i)];
        args := args + [obj.fields[v.elemName]];
      }
      k := k + 1;
    }
    assert names[..k] == names;
    r := Ok(("INSERT INTO " + QualifiedName(t) + " (" + Join(cols, ",") + ") VALUES(" + Join(vals, ",") + ")", args));
  }

  /** One more item adds its name, its placeholder and its value. */
  lemma ItemsSnocViews(its: seq<(string, Value)>, it: (string, Value))
    ensures Names(its + [it]) == Names(its) + [it.0]
    ensures PostgresDml.ItemValues(its + [it]) == PostgresDml.ItemValues(its) + [it.1]
    ensures PostgresDml.Placeholders(|its| + 1) == PostgresDml.Placeholders(|its|) + [PostgresDml.Placeholder(|its| + 1)]
  {
  }

  lemma LegacyItemsStopAt(t: LegacyTable, obj: Record, names: seq<string>, skipAuto: bool, i: nat)
    requires i < |names| && LegacyItems(t, obj, names[..i], skipAuto).Ok?
    requires names[i] in t.columns && !(skipAuto && t.columns[names[i]].auto)
    requires t.columns[names[i]].elemName !in obj.fields
    ensures LegacyItems(t, obj, names, skipAuto) == Panic(ZeroValuePanic)
  {
    LegacyItemsStopFrom(t, obj, names, skipAuto, i, |names|);
    assert names[..|names|] == names;
  }

  lemma {:induction false} LegacyItemsStopFrom(t: LegacyTable, obj: Record, names: seq<string>, skipAuto: bool, i: nat, m: nat)
    requires i < m <= |names| && LegacyItems(t, obj, names[..i], skipAuto).Ok?
    requires names[i] in t.columns && !(skipAuto && t.columns[names[i]].auto)
    requires t.columns[names[i]].elemName !in obj.fields
    ensures LegacyItems(t, obj, names[..m], skipAuto) == Panic(ZeroValuePanic)
    decreases m
  {
    var pre := names[..m];
    assert pre[..m - 1] == names[..m - 1];
    if m - 1 > i {
      LegacyItemsStopFrom(t, obj, names, skipAuto, i, m - 1);
    } else {
      assert pre[m - 1] == names[i];
    }
  }

  /** Which names the older Insert keeps: with explicit names, exactly the
      known ones (empty values included); without, exactly the columns that
      are not automatic. */
  lemma {:induction false} LegacyItemsExact(t: LegacyTable, obj: Record, names: seq<string>, skipAuto: bool)
    requires LegacyItems(t, obj, names, skipAuto).Ok?
    ensures forall n :: n in Names(LegacyItems(t, obj, names, skipAuto).value) <==>
      n in names && n in t.columns && !(skipAuto && t.columns[n].auto)
    ensures forall p :: p in LegacyItems(t, obj, names, skipAuto).value ==>
      p.0 in t.columns && t.columns[p.0].elemName in obj.fields && p.1 == obj.fields[t.columns[p.0].elemName]
  {
    if names != [] {
      var init := names[..|names| - 1];
      var last := names[|names| - 1];
      assert LegacyItems(t, obj, init, skipAuto).Ok?;
      LegacyItemsExact(t, obj, init, skipAuto);
      assert names == init + [last];
      var prev := LegacyItems(t, obj, init, skipAuto).value;
      var cur := LegacyItems(t, obj, names, skipAuto).value;
      if last in t.columns && !(skipAuto && t.columns[last].auto) {
        assert cur == prev + [(last, obj.fields[t.columns[last].elemName])];
        assert Names(cur) == Names(prev) + [last];
      } else {
        assert cur == prev;
      }
    }
  }

  // ---- Update (driver/postgres/postgres.go:112-155) ----

  /** The SET items as written: every item takes a placeholder, whatever its
      operator, and each is appended after a single space. */
  function LegacySetItems(cols: seq<UpdateColumn>): (r: Compiled)
    ensures r.n == |cols| && |r.args| == |cols|
  {
    if cols == [] then PostgresDml.Compiled("", [], 0)
    else
      var prev := LegacySetItems(cols[..|cols| - 1]);
      var uc := cols[|cols| - 1];
      var head := if |cols| == 1 then prev.text + " SET " else prev.text;
      PostgresDml.Compiled(head + " \"" + uc.field + "\"=" + PostgresDml.Placeholder(prev.n + 1),
        prev.args + [uc.value], prev.n + 1)
  }

  function LegacyUpdateSql(t: LegacyTable, filters: seq<QueryFilter>, cols: seq<UpdateColumn>): Result<(string, seq<Value>)>
  {
    if |cols| < 1 then Panic("Empty Update Columns!!!")
    else
      var sets := LegacySetItems(cols);
      var w := LegacyFilters(filters, PostgresDml.Compiled("UPDATE " + QualifiedName(t) + sets.text, sets.args, sets.n));
      Ok((w.text, w.args))
  }

  method LegacyUpdate(t: LegacyTable, filters: seq<QueryFilter>, cols: seq<UpdateColumn>) returns (r: Result<(string, seq<Value>)>)
    ensures r == LegacyUpdateSql(t, filters, cols)
  {
    var name := LegacyTableName(t);
    var s := "UPDATE " + name;
    if |cols| < 1 {
      return Panic("Empty Update Columns!!!");
    }
    var n: nat := 0;
    var args: seq<Value> := [];
    var sets := "";
    var i := 0;
    while i < |cols|
      invariant 0 <= i <= |cols|
      invariant PostgresDml.Compiled(sets, args, n) == LegacySetItems(cols[..i])
    {
      var uc := cols[i];
      assert cols[..i + 1][..i] == cols[..i];
      if i == 0 {
        sets := sets + " SET ";
      }
      n := n + 1;
      sets := sets + " \"" + uc.field + "\"=" + PostgresDml.Placeholder(n);
      args := args + [uc.value];
      i := i + 1;
    }
    assert cols[..i] == cols;
    s := s + sets;
    s, n, args := LegacyCompileFilters(filters, s, n, args);
    return Ok((s, args));
  }

  /** The SET clause as written has no comma between items: two columns
      give ` SET  "a"=$1 "b"=$2`. */
  lemma LegacySetHasNoComma(a: Value, b: Value)
    ensures LegacySetItems([UpdateColumn("a", "=", a), UpdateColumn("b", "=", b)]).text == " SET  \"a\"=$1 \"b\"=$2"
  {
    var cols := [UpdateColumn("a", "=", a), UpdateColumn("b", "=", b)];
    assert NatToString(1) == "1" && NatToString(2) == "2";
    assert PostgresDml.Placeholder(1) == "$1" && PostgresDml.Placeholder(2) == "$2";
    assert cols[..1] == [UpdateColumn("a", "=", a)];
    assert cols[..1][..0] == [];
    var empty := LegacySetItems([]);
    assert empty.text == "" && empty.n == 0;
    var first := LegacySetItems(cols[..1]);
    assert first.n == 1;
    assert first.text == "" + " SET " + " \"" + "a" + "\"=" + "$1";
    assert "" + " SET " + " \"" + "a" + "\"=" + "$1" == " SET  \"a\"=$1";
    assert LegacySetItems(cols).text == first.text + " \"" + "b" + "\"=" + "$2";
    assert " SET  \"a\"=$1" + " \"" + "b" + "\"=" + "$2" == " SET  \"a\"=$1 \"b\"=$2";
  }

  /** One SET item as the statement needs it. */
  function SetItem(uc: UpdateColumn, n: nat): string
  {
    "\"" + uc.field + "\"=" + PostgresDml.Placeholder(n)
  }

  /** The SET clause with the items separated by commas. */
  function CorrectedSetItems(cols: seq<UpdateColumn>): (r: Compiled)
    ensures r.n == |cols| && |r.args| == |cols|
  {
    if cols == [] then PostgresDml.Compiled("", [], 0)
    else
      var prev := CorrectedSetItems(cols[..|cols| - 1]);
      var uc := cols[|cols| - 1];
      PostgresDml.Compiled(prev.text + (if |cols| == 1 then " SET " else ", ") + SetItem(uc, prev.n + 1),
        prev.args + [uc.value], prev.n + 1)
  }

  /** The numbered items, $1 .. $k. */
  function SetItemTexts(cols: seq<UpdateColumn>): (r: seq<string>)
    ensures |r| == |cols| && forall k :: 0 <= k < |cols| ==> r[k] == SetItem(cols[k], k + 1)
  {
    seq(|cols|, k requires 0 <= k < |cols| => SetItem(cols[k], k + 1))
  }

  /** The corrected clause is " SET " and the numbered items joined by ", ",
      and its arguments are the column values in order. */
  lemma {:induction false} CorrectedSetJoined(cols: seq<UpdateColumn>)
    requires |cols| >= 1
    ensures CorrectedSetItems(cols).text == " SET " + Join(SetItemTexts(cols), ", ")
  {
    var init := cols[..|cols| - 1];
    var x := SetItem(cols[|cols| - 1], |cols|);
    SetItemTextsSnoc(cols);
    if |cols| == 1 {
      assert init == [];
      assert CorrectedSetItems(cols).text == " SET " + x;
    } else {
      var items := SetItemTexts(init);
      CorrectedSetJoined(init);
      CorrectedSetStep(cols);
      JoinSnoc(items, x, ", ");
      Regroup(" SET ", Join(items, ", "), ", " + x);
    }
  }

  lemma CorrectedSetStep(cols: seq<UpdateColumn>)
    requires |cols| > 1
    ensures CorrectedSetItems(cols).text
      == CorrectedSetItems(cols[..|cols| - 1]).text + ", " + SetItem(cols[|cols| - 1], |cols|)
  {
  }

  lemma Regroup(a: string, b: string, c: string)
    ensures a + b + c == a + (b + c)
  {
  }

  lemma SetItemTextsSnoc(cols: seq<UpdateColumn>)
    requires cols != []
    ensures SetItemTexts(cols) == SetItemTexts(cols[..|cols| - 1]) + [SetItem(cols[|cols| - 1], |cols|)]
  {
    var a := SetItemTexts(cols);
    var b := SetItemTexts(cols[..|cols| - 1]) + [SetItem(cols[|cols| - 1], |cols|)];
    assert |a| == |b|;
    forall k | 0 <= k < |a|
      ensures a[k] == b[k]
    {
    }
  }

  /** The corrected clause passes the column values in order. */
  lemma {:induction false} CorrectedSetArgs(cols: seq<UpdateColumn>)
    ensures CorrectedSetItems(cols).args == seq(|cols|, k requires 0 <= k < |cols| => cols[k].value)
  {
    if cols != [] {
      CorrectedSetArgs(cols[..|cols| - 1]);
    }
  }

  // ---- Delete (driver/postgres/postgres.go:157-188) ----

  function LegacyDeleteSql(t: LegacyTable, filters: seq<QueryFilter>): (string, seq<Value>)
  {
    var w := LegacyFilters(filters, PostgresDml.Compiled("DELETE FROM " + QualifiedName(t), [], 0));
    (w.text, w.args)
  }

  method LegacyDelete(t: LegacyTable, filters: seq<QueryFilter>) returns (s: string, args: seq<Value>)
    ensures (s, args) == LegacyDeleteSql(t, filters)
  {
    var name := LegacyTableName(t);
    s := "DELETE FROM " + name;
    var n;
    s, n, args := LegacyCompileFilters(filters, s, 0, []);
  }

  /** The older Update and Delete pass the SET values, then the non-raw
      filter values, one placeholder each. */
  lemma LegacyUpdateArgs(t: LegacyTable, filters: seq<QueryFilter>, cols: seq<UpdateColumn>)
    requires |cols| >= 1
    ensures LegacyUpdateSql(t, filters, cols).Ok?
    ensures LegacyUpdateSql(t, filters, cols).value.1 == LegacySetItems(cols).args + PostgresDml.FilterArgs(filters)
  {
    var sets := LegacySetItems(cols);
    LegacyFiltersArgs(filters, PostgresDml.Compiled("UPDATE " + QualifiedName(t) + sets.text, sets.args, sets.n));
  }

  lemma LegacyDeleteArgs(t: LegacyTable, filters: seq<QueryFilter>)
    ensures LegacyDeleteSql(t, filters).1 == PostgresDml.FilterArgs(filters)
    ensures filters != [] ==> HasPrefix(LegacyDeleteSql(t, filters).0, "DELETE FROM " + QualifiedName(t) + " WHERE ")
  {
    var start := PostgresDml.Compiled("DELETE FROM " + QualifiedName(t), [], 0);
    LegacyFiltersArgs(filters, start);
    if filters != [] {
      LegacyWhereFirst(filters, start);
    }
  }
}
