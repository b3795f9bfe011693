/** The query half of the Postgres dialect (dialects/postgres/postgres.go):
    Select, Insert, InsertWithInsertedId, Update and Delete, each producing
    the statement text and the ordered list of placeholder arguments. */
module PostgresDml {
  import opened Wrappers
  import opened Strings
  import opened SchemaTypes
  import opened Tables
  import opened QueryTypes
  import opened Query
  import opened PostgresDdl

  /** The `$n` placeholder. */
  function Placeholder(n: nat): string
  {
    "$" + NatToString(n)
  }

  // ---- the filter loop shared by Select, Update and Delete ----

  /** The connective of a filter: WHERE for the first one, else its
      condition's keyword; a condition that is neither has none. */
  function Cause(f: QueryFilter, first: bool): (c: string)
    ensures first ==> c == "WHERE"
    ensures !first && f.condition == ConditionAnd ==> c == "AND"
    ensures !first && f.condition == ConditionOr ==> c == "OR"
    ensures !first && f.condition != ConditionAnd && f.condition != ConditionOr ==> c == ""
  {
    if first then "WHERE"
    else if f.condition == ConditionAnd then "AND"
    else if f.condition == ConditionOr then "OR"
    else ""
  }

  /** A filter takes a placeholder unless its operator is empty (raw text). */
  predicate TakesPlaceholder(f: QueryFilter) { f.operator != "" }

  /** The placeholder, wrapped in the filter's function if it has one. */
  function Operand(f: QueryFilter, n: nat): string
  {
    if f.fn != "" then f.fn + "(" + Placeholder(n) + ")" else Placeholder(n)
  }

  /** The text one filter adds after `n` placeholders were used. A raw
      filter's text is escaped only when `escapeRaw` (Select does, Update
      and Delete do not); a reversed filter puts the placeholder first. */
  function Clause(esc: Escaper, escapeRaw: bool, f: QueryFilter, first: bool, n: nat): (c: string)
  {
    var lead := " " + Cause(f, first) + " ";
    if !TakesPlaceholder(f) then lead + (if escapeRaw then esc(f.field) else f.field)
    else if f.reversed then lead + Operand(f, n + 1) + " " + f.operator + " " + esc(f.field)
    else lead + esc(f.field) + " " + f.operator + " " + Operand(f, n + 1)
  }

  /** Text, arguments and placeholder counter of a statement being built. */
  datatype Compiled = Compiled(text: string, args: seq<Value>, n: nat)

  /** One filter appended to a statement being built. */
  function FilterStep(esc: Escaper, escapeRaw: bool, prev: Compiled, f: QueryFilter, first: bool): (r: Compiled)
  {
    var text := prev.text + Clause(esc, escapeRaw, f, first, prev.n);
    if TakesPlaceholder(f) then Compiled(text, prev.args + [f.value], prev.n + 1)
    else Compiled(text, prev.args, prev.n)
  }

  /** The filters appended one after another to `start`; the first one
      gets WHERE. */
  function Filters(esc: Escaper, escapeRaw: bool, fs: seq<QueryFilter>, start: Compiled): (r: Compiled)
  {
    if fs == [] then start
    else FilterStep(esc, escapeRaw, Filters(esc, escapeRaw, fs[..|fs| - 1], start), fs[|fs| - 1], |fs| == 1)
  }

  /** The values of the filters that take a placeholder, in filter order. */
  function FilterArgs(fs: seq<QueryFilter>): seq<Value>
  {
    if fs == [] then []
    else
      var f := fs[|fs| - 1];
      FilterArgs(fs[..|fs| - 1]) + (if TakesPlaceholder(f) then [f.value] else [])
  }

  lemma FilterArgsSnoc(fs: seq<QueryFilter>, f: QueryFilter)
    ensures FilterArgs(fs + [f]) == FilterArgs(fs) + (if TakesPlaceholder(f) then [f.value] else [])
  {
    assert (fs + [f])[..|fs|] == fs;
  }

  /** The filters add exactly the values of the non-raw filters, in order,
      and move the counter on by as many: the placeholders they use are
      start.n+1 .. start.n+|FilterArgs(fs)|. */
  lemma {:induction false} FiltersArgs(esc: Escaper, escapeRaw: bool, fs: seq<QueryFilter>, start: Compiled)
    ensures Filters(esc, escapeRaw, fs, start).args == start.args + FilterArgs(fs)
    ensures Filters(esc, escapeRaw, fs, start).n == start.n + |FilterArgs(fs)|
  {
    if fs != [] {
      var init, f := fs[..|fs| - 1], fs[|fs| - 1];
      FiltersArgs(esc, escapeRaw, init, start);
      FilterStepArgs(esc, escapeRaw, Filters(esc, escapeRaw, init, start), f, |fs| == 1);
    }
  }

  /** One filter adds its value and one to the counter iff it takes a
      placeholder. */
  lemma FilterStepArgs(esc: Escaper, escapeRaw: bool, prev: Compiled, f: QueryFilter, first: bool)
    ensures FilterStep(esc, escapeRaw, prev, f, first).args == prev.args + (if TakesPlaceholder(f) then [f.value] else [])
    ensures FilterStep(esc, escapeRaw, prev, f, first).n == prev.n + (if TakesPlaceholder(f) then 1 else 0)
  {
  }

  /** Filter k is written with the counter left by the filters before it:
      it takes placeholder start.n + (non-raw filters before it) + 1. */
  lemma FiltersNumbering(esc: Escaper, escapeRaw: bool, fs: seq<QueryFilter>, start: Compiled, k: nat)
    requires k < |fs|
    ensures Filters(esc, escapeRaw, fs[..k + 1], start).text ==
      Filters(esc, escapeRaw, fs[..k], start).text + Clause(esc, escapeRaw, fs[k], k == 0, start.n + |FilterArgs(fs[..k])|)
  {
    assert fs[..k + 1][..k] == fs[..k];
    FiltersArgs(esc, escapeRaw, fs[..k], start);
  }

  /** Filters only ever append: the text of the first k filters is a prefix
      of the text of all of them. */
  lemma {:induction false} FiltersPrefix(esc: Escaper, escapeRaw: bool, fs: seq<QueryFilter>, start: Compiled, k: nat)
    requires k <= |fs|
    ensures HasPrefix(Filters(esc, escapeRaw, fs, start).text, Filters(esc, escapeRaw, fs[..k], start).text)
    decreases |fs| - k
  {
    if k == |fs| {
      assert fs[..k] == fs;
    } else {
      FiltersPrefix(esc, escapeRaw, fs, start, k + 1);
      var shorter := Filters(esc, escapeRaw, fs[..k], start).text;
      var longer := Filters(esc, escapeRaw, fs[..k + 1], start).text;
      assert fs[..k + 1][..k] == fs[..k];
      assert HasPrefix(longer, shorter) by {
        assert longer == shorter + Clause(esc, escapeRaw, fs[k], k == 0, Filters(esc, escapeRaw, fs[..k], start).n);
      }
    }
  }

  /** The first filter always opens with WHERE, whatever its condition. */
  lemma FiltersStartWithWhere(esc: Escaper, escapeRaw: bool, fs: seq<QueryFilter>, start: Compiled)
    requires fs != []
    ensures HasPrefix(Filters(esc, escapeRaw, fs, start).text, start.text + " WHERE ")
  {
    FiltersPrefix(esc, escapeRaw, fs, start, 1);
    assert fs[..1][..0] == [];
    var c := Clause(esc, escapeRaw, fs[0], true, start.n);
    assert Filters(esc, escapeRaw, fs[..1], start).text == start.text + c;
    ClauseLead(esc, escapeRaw, fs[0], true, start.n);
    PrefixUnder(start.text, c, " WHERE ");
    PrefixTrans(Filters(esc, escapeRaw, fs, start).text, start.text + c, start.text + " WHERE ");
  }

  /** Every clause opens with its connective between spaces. */
  lemma ClauseLead(esc: Escaper, escapeRaw: bool, f: QueryFilter, first: bool, n: nat)
    ensures HasPrefix(Clause(esc, escapeRaw, f, first, n), " " + Cause(f, first) + " ")
  {
    var lead := " " + Cause(f, first) + " ";
    var c := Clause(esc, escapeRaw, f, first, n);
    assert c == lead + c[|lead|..];
  }

  /** The text of one filter, as the loop of Select, Update and Delete
      writes it after `n` placeholders were used. */
  method FilterText(esc: Escaper, escapeRaw: bool, f: QueryFilter, first: bool, n: nat) returns (c: string)
    ensures c == Clause(esc, escapeRaw, f, first, n)
  {
    var cause := "";
    if f.condition == ConditionAnd {
      cause := "AND";
    } else if f.condition == ConditionOr {
      cause := "OR";
    }
    if first {
      cause := "WHERE";
    }
    if f.operator == "" {
      c := " " + cause + " " + (if escapeRaw then esc(f.field) else f.field);
    } else if f.reversed {
      if f.fn != "" {
        c := " " + cause + " " + (f.fn + "(" + Placeholder(n + 1) + ")") + " " + f.operator + " " + esc(f.field);
      } else {
        c := " " + cause + " " + Placeholder(n + 1) + " " + f.operator + " " + esc(f.field);
      }
    } else {
      if f.fn != "" {
        c := " " + cause + " " + esc(f.field) + " " + f.operator + " " + (f.fn + "(" + Placeholder(n + 1) + ")");
      } else {
        c := " " + cause + " " + esc(f.field) + " " + f.operator + " " + Placeholder(n + 1);
      }
    }
  }

  /** Shared by Select, Update and Delete (postgres.go:240-272, 432-464,
      474-506): the filters appended to `s`, counting on from `n`. */
  method CompileFilters(esc: Escaper, escapeRaw: bool, fs: seq<QueryFilter>, s0: string, n0: nat, args0: seq<Value>)
    returns (s: string, n: nat, args: seq<Value>)
    ensures Compiled(s, args, n) == Filters(esc, escapeRaw, fs, Compiled(s0, args0, n0))
  {
    s, n, args := s0, n0, args0;
    var i := 0;
    while i < |fs|
      invariant 0 <= i <= |fs|
      invariant Compiled(s, args, n) == Filters(esc, escapeRaw, fs[..i], Compiled(s0, args0, n0))
    {
      s, n, args := AppendFilter(esc, escapeRaw, fs[i], i == 0, s, n, args);
      FiltersSnoc(esc, escapeRaw, fs, i, Compiled(s0, args0, n0));
      i := i + 1;
    }
    assert fs[..i] == fs;
  }

  /** One round of that loop: the filter's text, and its value when it
      takes a placeholder. */
  method AppendFilter(esc: Escaper, escapeRaw: bool, f: QueryFilter, first: bool, s0: string, n0: nat, args0: seq<Value>)
    returns (s: string, n: nat, args: seq<Value>)
    ensures Compiled(s, args, n) == FilterStep(esc, escapeRaw, Compiled(s0, args0, n0), f, first)
  {
    var c := FilterText(esc, escapeRaw, f, first, n0);
    s, n, args := s0 + c, n0, args0;
    if f.operator != "" {
      n := n + 1;
      args := args + [f.value];
    }
  }

  lemma FiltersSnoc(esc: Escaper, escapeRaw: bool, fs: seq<QueryFilter>, i: nat, start: Compiled)
    requires i < |fs|
    ensures Filters(esc, escapeRaw, fs[..i + 1], start)
         == FilterStep(esc, escapeRaw, Filters(esc, escapeRaw, fs[..i], start), fs[i], i == 0)
  {
    assert fs[..i + 1][..i] == fs[..i];
  }

  // ---- Select (postgres.go:232-296) ----

  /** An order's text; kinds other than ASC and DESC are dropped. */
  function OrderPiece(esc: Escaper, o: QueryOrder): Option<string>
  {
    if o.kind == OrderAsc then Some(esc(o.field) + " ASC")
    else if o.kind == OrderDesc then Some(esc(o.field) + " DESC")
    else None
  }

  function OrderPieces(esc: Escaper, os: seq<QueryOrder>): (r: seq<string>)
    ensures |r| <= |os|
  {
    if os == [] then []
    else OrderPieces(esc, os[..|os| - 1]) + ToSeq(OrderPiece(esc, os[|os| - 1]))
  }

  /** The projection: every column as QueryColumn.String prints it when
      given no `as` flag. */
  function ColumnTexts(cols: seq<QueryColumn>): (r: seq<string>)
    ensures |r| == |cols| && forall k :: 0 <= k < |cols| ==> r[k] == ColumnString(cols[k], [])
  {
    seq(|cols|, k requires 0 <= k < |cols| => ColumnString(cols[k], []))
  }

  /** The ORDER BY clause, present when some order is kept. */
  function OrderClause(esc: Escaper, orders: seq<QueryOrder>): string
  {
    var os := OrderPieces(esc, orders);
    if |os| > 0 then " ORDER BY " + Join(os, ",") else ""
  }

  /** What follows the filters: the ORDER BY clause, then OFFSET and LIMIT
      when not negative, then the lock when set. */
  function SelectTail(byOrder: string, lockFor: string, offset: int, limit: int): string
  {
    var byOffset := if offset >= 0 then byOrder + " OFFSET " + IntToString(offset) else byOrder;
    var byLimit := if limit >= 0 then byOffset + " LIMIT " + IntToString(limit) else byOffset;
    if lockFor != "" then byLimit + " FOR " + lockFor else byLimit
  }

  /** The statement up to the filters. */
  function SelectHead(t: Table, cols: seq<QueryColumn>): string
    reads t
  {
    "SELECT " + Join(ColumnTexts(cols), ",") + " FROM " + t.TableName()
  }

  function SelectSql(esc: Escaper, t: Table, cols: seq<QueryColumn>, filters: seq<QueryFilter>,
                     orders: seq<QueryOrder>, lockFor: string, offset: int, limit: int): (r: (string, seq<Value>))
    reads t
  {
    var w := Filters(esc, true, filters, Compiled(SelectHead(t, cols), [], 0));
    (w.text + SelectTail(OrderClause(esc, orders), lockFor, offset, limit), w.args)
  }

  method Select(esc: Escaper, t: Table, cols: seq<QueryColumn>, filters: seq<QueryFilter>,
                orders: seq<QueryOrder>, lockFor: string, offset: int, limit: int)
    returns (s: string, args: seq<Value>)
    ensures (s, args) == SelectSql(esc, t, cols, filters, orders, lockFor, offset, limit)
  {
    var colNames := SelectColumns(cols);
    var head := "SELECT " + Join(colNames, ",") + " FROM " + t.TableName();
    var n;
    s, n, args := CompileFilters(esc, true, filters, head, 0, []);
    var sOrders := SelectOrders(esc, orders);
    var tail := "";
    if |sOrders| > 0 {
      tail := " ORDER BY " + Join(sOrders, ",");
    }
    if offset >= 0 {
      tail := tail + " OFFSET " + IntToString(offset);
    }
    if limit >= 0 {
      tail := tail + " LIMIT " + IntToString(limit);
    }
    if lockFor != "" {
      tail := tail + " FOR " + lockFor;
    }
    assert tail == SelectTail(OrderClause(esc, orders), lockFor, offset, limit);
    s := s + tail;
  }

  /** The projection loop of Select (postgres.go:233-236). */
  method SelectColumns(cols: seq<QueryColumn>) returns (colNames: seq<string>)
    ensures colNames == ColumnTexts(cols)
  {
    colNames := [];
    var i := 0;
    while i < |cols|
      invariant 0 <= i <= |cols|
      invariant colNames == ColumnTexts(cols[..i])
    {
      colNames := colNames + [ColumnString(cols[i], [])];
      i := i + 1;
    }
    assert cols[..i] == cols;
  }

  /** The ORDER BY loop of Select (postgres.go:273-282). */
  method SelectOrders(esc: Escaper, orders: seq<QueryOrder>) returns (sOrders: seq<string>)
    ensures sOrders == OrderPieces(esc, orders)
  {
    sOrders := [];
    var i := 0;
    while i < |orders|
      invariant 0 <= i <= |orders|
      invariant sOrders == OrderPieces(esc, orders[..i])
    {
      var o := orders[i];
      assert orders[..i + 1][..i] == orders[..i];
      if o.kind == OrderAsc {
        sOrders := sOrders + [esc(o.field) + " ASC"];
      } else if o.kind == OrderDesc {
        sOrders := sOrders + [esc(o.field) + " DESC"];
      }
      i := i + 1;
    }
    assert orders[..i] == orders;
  }

  predicate HasSuffix(s: string, suffix: string)
  {
    |suffix| <= |s| && s[|s| - |suffix|..] == suffix
  }

  lemma SuffixOfAppend(a: string, b: string)
    ensures HasSuffix(a + b, b)
  {
    assert (a + b)[|a + b| - |b|..] == b;
  }

  /** Whatever precedes it, the tail ends with the lock when one is set,
      else with the limit when not negative, else with the offset when not
      negative. */
  lemma TailEnds(w: string, byOrder: string, lockFor: string, offset: int, limit: int)
    ensures lockFor != "" ==> HasSuffix(w + SelectTail(byOrder, lockFor, offset, limit), " FOR " + lockFor)
    ensures lockFor == "" && limit >= 0 ==>
      HasSuffix(w + SelectTail(byOrder, lockFor, offset, limit), " LIMIT " + IntToString(limit))
    ensures lockFor == "" && limit < 0 && offset >= 0 ==>
      HasSuffix(w + SelectTail(byOrder, lockFor, offset, limit), " OFFSET " + IntToString(offset))
  {
    var tail := SelectTail(byOrder, lockFor, offset, limit);
    var byOffset := if offset >= 0 then byOrder + " OFFSET " + IntToString(offset) else byOrder;
    var byLimit := if limit >= 0 then byOffset + " LIMIT " + IntToString(limit) else byOffset;
    if lockFor != "" {
      assert tail == byLimit + (" FOR " + lockFor);
      EndsWith(w, byLimit, " FOR " + lockFor);
    } else if limit >= 0 {
      assert tail == byOffset + (" LIMIT " + IntToString(limit));
      EndsWith(w, byOffset, " LIMIT " + IntToString(limit));
    } else if offset >= 0 {
      assert tail == byOrder + (" OFFSET " + IntToString(offset));
      EndsWith(w, byOrder, " OFFSET " + IntToString(offset));
    }
  }

  lemma EndsWith(w: string, a: string, b: string)
    ensures HasSuffix(w + (a + b), b)
  {
    assert w + (a + b) == (w + a) + b;
    SuffixOfAppend(w + a, b);
  }

  /** Select: its arguments are the non-raw filter values in order, with
      one placeholder each, and the lock, else the limit, else the offset
      ends the statement when set. */
  lemma SelectShape(esc: Escaper, t: Table, cols: seq<QueryColumn>, filters: seq<QueryFilter>,
                    orders: seq<QueryOrder>, lockFor: string, offset: int, limit: int)
    ensures SelectSql(esc, t, cols, filters, orders, lockFor, offset, limit).1 == FilterArgs(filters)
    ensures Filters(esc, true, filters, Compiled(SelectHead(t, cols), [], 0)).n == |FilterArgs(filters)|
    ensures lockFor != "" ==>
      HasSuffix(SelectSql(esc, t, cols, filters, orders, lockFor, offset, limit).0, " FOR " + lockFor)
    ensures lockFor == "" && limit >= 0 ==>
      HasSuffix(SelectSql(esc, t, cols, filters, orders, lockFor, offset, limit).0, " LIMIT " + IntToString(limit))
    ensures lockFor == "" && limit < 0 && offset >= 0 ==>
      HasSuffix(SelectSql(esc, t, cols, filters, orders, lockFor, offset, limit).0, " OFFSET " + IntToString(offset))
  {
    var start := Compiled(SelectHead(t, cols), [], 0);
    FiltersArgs(esc, true, filters, start);
    TailEnds(Filters(esc, true, filters, start).text, OrderClause(esc, orders), lockFor, offset, limit);
  }

  /** With filters, the first one opens with WHERE straight after the table. */
  lemma SelectWhereFirst(esc: Escaper, t: Table, cols: seq<QueryColumn>, filters: seq<QueryFilter>,
                         orders: seq<QueryOrder>, lockFor: string, offset: int, limit: int)
    requires filters != []
    ensures HasPrefix(SelectSql(esc, t, cols, filters, orders, lockFor, offset, limit).0, SelectHead(t, cols) + " WHERE ")
  {
    var start := Compiled(SelectHead(t, cols), [], 0);
    FiltersStartWithWhere(esc, true, filters, start);
    var w := Filters(esc, true, filters, start).text;
    var p := SelectHead(t, cols) + " WHERE ";
    assert (w + SelectTail(OrderClause(esc, orders), lockFor, offset, limit))[..|p|] == w[..|p|];
  }

  /** Select never prints an alias: every projected column is its bare
      expression. */
  lemma SelectHasNoAlias(cols: seq<QueryColumn>, k: nat)
    requires k < |cols|
    ensures ColumnTexts(cols)[k] == ColumnExpr(cols[k])
  {
  }

  // ---- isEmptyValue (postgres.go:298-314) ----

  /** The zero values Insert leaves out. VNil stands for a missing
      (invalid) reflected value, for which the function is false. */
  predicate IsEmptyValue(v: Value)
  {
    match v
    case VList(len) => len == 0
    case VString(s) => |s| == 0
    case VBool(b) => !b
    case VInt(i) => i == 0
    case VUint(u) => u == 0
    case VFloat(isZero) => isZero
    case VPtr(isNil) => isNil
    case VIface(isNil) => isNil
    case VNil => false
    case VOther => false
  }

  // ---- Insert and InsertWithInsertedId (postgres.go:318-397) ----

  /** The names to insert: the given ones, else every column's field name. */
  function InsertNames(t: Table, col: seq<string>): (r: seq<string>)
    reads t
    ensures |col| >= 1 ==> r == col
    ensures |col| < 1 ==> |r| == |t.columns| && forall k :: 0 <= k < |r| ==> r[k] == t.columns[k].info.fieldName
  {
    var cs := t.columns;
    if |col| < 1 then seq(|cs|, k requires 0 <= k < |cs| => cs[k].info.fieldName) else col
  }

  /** A name is inserted when it resolves to a column whose field the object
      has, with a value that is neither missing nor empty. */
  predicate Accepted(t: Table, obj: Record, name: string)
    reads t
  {
    t.GetColumn(name).Some?
    && var e := t.GetColumn(name).value.info.elemName;
    e in obj.fields && obj.fields[e] != VNil && !IsEmptyValue(obj.fields[e])
  }

  /** The (field name, value) an accepted name contributes. */
  function ItemOf(t: Table, obj: Record, name: string): (string, Value)
    reads t
    requires Accepted(t, obj, name)
  {
    var c := t.GetColumn(name).value;
    (c.info.fieldName, obj.fields[c.info.elemName])
  }

  /** The inserted items, in the order of the names. */
  function InsertItems(t: Table, obj: Record, names: seq<string>): seq<(string, Value)>
    reads t
  {
    if names == [] then []
    else
      var prev := InsertItems(t, obj, names[..|names| - 1]);
      var n := names[|names| - 1];
      if Accepted(t, obj, n) then prev + [ItemOf(t, obj, n)] else prev
  }

  /** `$1` .. `$k`. */
  function Placeholders(k: nat): (r: seq<string>)
    ensures |r| == k && forall i :: 0 <= i < k ==> r[i] == Placeholder(i + 1)
  {
    seq(k, i requires 0 <= i < k => Placeholder(i + 1))
  }

  function EscapedNames(esc: Escaper, items: seq<(string, Value)>): (r: seq<string>)
    ensures |r| == |items| && forall k :: 0 <= k < |items| ==> r[k] == esc(items[k].0)
  {
    seq(|items|, k requires 0 <= k < |items| => esc(items[k].0))
  }

  function ItemValues(items: seq<(string, Value)>): (r: seq<Value>)
    ensures |r| == |items| && forall k :: 0 <= k < |items| ==> r[k] == items[k].1
  {
    seq(|items|, k requires 0 <= k < |items| => items[k].1)
  }

  /** The INSERT text without a RETURNING clause, and its arguments. */
  function InsertSql(esc: Escaper, t: Table, obj: Record, col: seq<string>): (r: (string, seq<Value>))
    reads t
  {
    var items := InsertItems(t, obj, InsertNames(t, col));
    ("INSERT INTO " + t.TableName() + " (" + Join(EscapedNames(esc, items), ",") + ") VALUES("
      + Join(Placeholders(|items|), ",") + ")", ItemValues(items))
  }

  /** The loop both inserts share: the names resolved, their values read
      and numbered. */
  method InsertParts(esc: Escaper, t: Table, obj: Record, col: seq<string>)
    returns (cols: seq<string>, vals: seq<string>, args: seq<Value>)
    ensures var items := InsertItems(t, obj, InsertNames(t, col));
      cols == EscapedNames(esc, items) && vals == Placeholders(|items|) && args == ItemValues(items)
  {
    var names := col;
    if |col| < 1 {
      var columns := t.GetColumns();
      var j := 0;
      while j < |columns|
        invariant 0 <= j <= |columns|
        invariant names == InsertNames(t, col)[..j]
      {
        names := names + [columns[j].info.fieldName];
        j := j + 1;
      }
      assert names == InsertNames(t, col);
    }
    cols, vals, args := [], [], [];
    var i: nat := 0;
    var k := 0;
    while k < |names|
      invariant 0 <= k <= |names|
      invariant var items := InsertItems(t, obj, names[..k]);
        i == |items| && cols == EscapedNames(esc, items) && vals == Placeholders(i) && args == ItemValues(items)
    {
      var n := names[k];
      assert names[..k + 1][..k] == names[..k];
      var column := t.GetColumn(n);
      if column.Some? {
        var e := column.value.info.elemName;
        if e in obj.fields && obj.fields[e] != VNil && !IsEmptyValue(obj.fields[e]) {
          args := args + [obj.fields[e]];
          i := i + 1;
          cols := cols + [esc(column.value.info.fieldName)];
          vals := vals + [Placeholder(i)];
        }
      }
      k := k + 1;
    }
    assert names[..k] == names;
  }

  method Insert(esc: Escaper, t: Table, obj: Record, col: seq<string>) returns (s: string, args: seq<Value>)
    ensures (s, args) == InsertSql(esc, t, obj, col)
  {
    var cols, vals;
    cols, vals, args := InsertParts(esc, t, obj, col);
    s := "INSERT INTO " + t.TableName() + " (" + Join(cols, ",") + ") VALUES(" + Join(vals, ",") + ")";
  }

  method InsertWithInsertedId(esc: Escaper, t: Table, obj: Record, insertedId: string, col: seq<string>)
    returns (s: string, args: seq<Value>)
    ensures s == InsertSql(esc, t, obj, col).0 + " RETURNING " + insertedId
    ensures args == InsertSql(esc, t, obj, col).1
  {
    var cols, vals;
    cols, vals, args := InsertParts(esc, t, obj, col);
    s := "INSERT INTO " + t.TableName() + " (" + Join(cols, ",") + ") VALUES(" + Join(vals, ",") + ") RETURNING " + insertedId;
  }

  /** Insert keeps exactly the accepted names, in order: every item comes
      from an accepted name, and every accepted name gives an item. No
      argument is empty, and there is one placeholder per argument. */
  lemma {:induction false} InsertItemsExact(t: Table, obj: Record, names: seq<string>)
    ensures forall p :: p in InsertItems(t, obj, names) ==>
      exists k :: 0 <= k < |names| && Accepted(t, obj, names[k]) && p == ItemOf(t, obj, names[k])
    ensures forall k :: 0 <= k < |names| && Accepted(t, obj, names[k]) ==> ItemOf(t, obj, names[k]) in InsertItems(t, obj, names)
    ensures forall p :: p in InsertItems(t, obj, names) ==> p.1 != VNil && !IsEmptyValue(p.1)
  {
    if names != [] {
      var init := names[..|names| - 1];
      InsertItemsExact(t, obj, init);
      forall p | p in InsertItems(t, obj, names)
        ensures exists k :: 0 <= k < |names| && Accepted(t, obj, names[k]) && p == ItemOf(t, obj, names[k])
      {
        if p in InsertItems(t, obj, init) {
          var k :| 0 <= k < |init| && Accepted(t, obj, init[k]) && p == ItemOf(t, obj, init[k]);
          assert names[k] == init[k];
        } else {
          assert p == ItemOf(t, obj, names[|names| - 1]);
        }
      }
      forall k | 0 <= k < |names| && Accepted(t, obj, names[k])
        ensures ItemOf(t, obj, names[k]) in InsertItems(t, obj, names)
      {
        if k < |init| {
          assert init[k] == names[k];
        }
      }
    }
  }

  /** The VALUES list is `$1,..,$k` for the k arguments. */
  lemma InsertPlaceholders(esc: Escaper, t: Table, obj: Record, col: seq<string>)
    ensures var items := InsertItems(t, obj, InsertNames(t, col));
      |InsertSql(esc, t, obj, col).1| == |items| && |EscapedNames(esc, items)| == |items|
  {
  }

  // ---- makeSetStr, Update (postgres.go:399-466) ----

  /** One SET item after `i` placeholders: a raw item is the field text
      alone and takes no argument; otherwise the next placeholder. */
  function MakeSetStr(esc: Escaper, uc: UpdateColumn, i: nat, args: seq<Value>): (r: (seq<Value>, string, nat))
    ensures uc.operator == "" ==> r == (args, uc.field, i)
    ensures uc.operator != "" ==> r.0 == args + [uc.value] && r.2 == i + 1
  {
    if uc.operator == "" then (args, uc.field, i)
    else (args + [uc.value], esc(uc.field) + uc.operator + Placeholder(i + 1), i + 1)
  }

  /** The SET clause: the first item after " SET ", the others after ", ". */
  function SetItems(esc: Escaper, cols: seq<UpdateColumn>): (r: Compiled)
    ensures r.n == |r.args|
  {
    if cols == [] then Compiled("", [], 0)
    else
      var prev := SetItems(esc, cols[..|cols| - 1]);
      var (args, ss, n) := MakeSetStr(esc, cols[|cols| - 1], prev.n, prev.args);
      Compiled(prev.text + (if |cols| == 1 then " SET " else ", ") + ss, args, n)
  }

  /** The values of the update columns that take a placeholder, in order. */
  function SetArgs(cols: seq<UpdateColumn>): seq<Value>
  {
    if cols == [] then []
    else (if cols[0].operator != "" then [cols[0].value] else []) + SetArgs(cols[1..])
  }

  lemma {:induction false} SetArgsSnoc(cols: seq<UpdateColumn>, c: UpdateColumn)
    ensures SetArgs(cols + [c]) == SetArgs(cols) + (if c.operator != "" then [c.value] else [])
  {
    if cols != [] {
      assert (cols + [c])[1..] == cols[1..] + [c];
      SetArgsSnoc(cols[1..], c);
    } else {
      assert [c][1..] == [];
    }
  }

  lemma {:induction false} SetItemsArgs(esc: Escaper, cols: seq<UpdateColumn>)
    ensures SetItems(esc, cols).args == SetArgs(cols)
  {
    if cols != [] {
      var init := cols[..|cols| - 1];
      SetItemsArgs(esc, init);
      assert cols == init + [cols[|cols| - 1]];
      SetArgsSnoc(init, cols[|cols| - 1]);
    }
  }

  /** Update: an empty column list panics; otherwise the SET items, then the
      filters, on one placeholder counter. A raw filter is not escaped. */
  function UpdateSql(esc: Escaper, t: Table, filters: seq<QueryFilter>, cols: seq<UpdateColumn>): (r: Result<(string, seq<Value>)>)
    reads t
  {
    if |cols| < 1 then Panic("Empty Update MappedColumns!!!")
    else
      var sets := SetItems(esc, cols);
      var w := Filters(esc, false, filters, Compiled("UPDATE " + t.TableName() + sets.text, sets.args, sets.n));
      Ok((w.text, w.args))
  }

  method Update(esc: Escaper, t: Table, filters: seq<QueryFilter>, cols: seq<UpdateColumn>) returns (r: Result<(string, seq<Value>)>)
    ensures r == UpdateSql(esc, t, filters, cols)
  {
    var s := "UPDATE " + t.TableName();
    if |cols| < 1 {
      return Panic("Empty Update MappedColumns!!!");
    }
    var sets, args, n := UpdateSets(esc, cols);
    s := s + sets;
    s, n, args := CompileFilters(esc, false, filters, s, n, args);
    return Ok((s, args));
  }

  /** The SET list of Update: one `column=$n` item per column, numbered
      from $1, with the arguments in column order. */
  method UpdateSets(esc: Escaper, cols: seq<UpdateColumn>) returns (sets: string, args: seq<Value>, n: nat)
    ensures Compiled(sets, args, n) == SetItems(esc, cols)
  {
    n := 0;
    args := [];
    sets := "";
    var ss: string;
    var i := 0;
    while i < |cols|
      invariant 0 <= i <= |cols|
      invariant Compiled(sets, args, n) == SetItems(esc, cols[..i])
    {
      var uc := cols[i];
      assert cols[..i + 1][..i] == cols[..i];
      var step := MakeSetStr(esc, uc, n, args);
      args, ss, n := step.0, step.1, step.2;
      if i == 0 {
        sets := sets + " SET " + ss;
      } else {
        sets := sets + ", " + ss;
      }
      i := i + 1;
    }
    assert cols[..i] == cols;
  }

  /** Update's arguments are the SET values, then the filter values, and
      the placeholders run from $1 to the number of arguments. */
  lemma UpdateArgs(esc: Escaper, t: Table, filters: seq<QueryFilter>, cols: seq<UpdateColumn>)
    requires |cols| >= 1
    ensures UpdateSql(esc, t, filters, cols).Ok?
    ensures UpdateSql(esc, t, filters, cols).value.1 == SetArgs(cols) + FilterArgs(filters)
    ensures var sets := SetItems(esc, cols);
      Filters(esc, false, filters, Compiled("UPDATE " + t.TableName() + sets.text, sets.args, sets.n)).n
        == |SetArgs(cols) + FilterArgs(filters)|
  {
    SetItemsArgs(esc, cols);
    var sets := SetItems(esc, cols);
    FiltersArgs(esc, false, filters, Compiled("UPDATE " + t.TableName() + sets.text, sets.args, sets.n));
  }

  // ---- Delete (postgres.go:470-508) ----

  function DeleteSql(esc: Escaper, t: Table, filters: seq<QueryFilter>): (r: (string, seq<Value>))
    reads t
  {
    var w := Filters(esc, false, filters, Compiled("DELETE FROM " + t.TableName(), [], 0));
    (w.text, w.args)
  }

  method Delete(esc: Escaper, t: Table, filters: seq<QueryFilter>) returns (s: string, args: seq<Value>)
    ensures (s, args) == DeleteSql(esc, t, filters)
  {
    var n;
    s, n, args := CompileFilters(esc, false, filters, "DELETE FROM " + t.TableName(), 0, []);
  }

  /** Delete passes the non-raw filter values in order, with as many
      placeholders, and its first filter opens with WHERE. */
  lemma DeleteShape(esc: Escaper, t: Table, filters: seq<QueryFilter>)
    ensures DeleteSql(esc, t, filters).1 == FilterArgs(filters)
    ensures Filters(esc, false, filters, Compiled("DELETE FROM " + t.TableName(), [], 0)).n == |FilterArgs(filters)|
    ensures filters != [] ==> HasPrefix(DeleteSql(esc, t, filters).0, "DELETE FROM " + t.TableName() + " WHERE ")
  {
    var start := Compiled("DELETE FROM " + t.TableName(), [], 0);
    FiltersArgs(esc, false, filters, start);
    if filters != [] {
      FiltersStartWithWhere(esc, false, filters, start);
    }
  }
}
