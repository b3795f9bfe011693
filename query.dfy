/** The query builder of query.go: column rendering, order parsing, the
    value-semantics QuerySet chain, and what each terminal operation hands to
    the dialect. Running the statements is not modelled. */
module Query {
  import opened Wrappers
  import opened Assoc
  import opened Strings
  import opened SchemaTypes
  import opened Tables
  import opened QueryTypes

  // ---- isPureField, QueryColumn.String (query.go:11-30) ----

  predicate IsAsciiLetter(c: char) { 'a' <= c <= 'z' || 'A' <= c <= 'Z' }

  predicate IsWordChar(c: char) { IsAsciiLetter(c) || IsDigit(c) || c == '_' }

  function AllWordChars(s: string): (b: bool)
    ensures b <==> forall k :: 0 <= k < |s| ==> IsWordChar(s[k])
  {
    s == [] || (IsWordChar(s[0]) && AllWordChars(s[1..]))
  }

  /** `^[a-zA-Z][a-zA-Z0-9_]*$` */
  function IsPureField(s: string): (b: bool)
    ensures b <==> |s| >= 1 && IsAsciiLetter(s[0]) && forall k :: 1 <= k < |s| ==> IsWordChar(s[k])
  {
    |s| >= 1 && IsAsciiLetter(s[0]) && AllWordChars(s[1..])
  }

  /** The projection text of a column, before any alias. */
  function ColumnExpr(qc: QueryColumn): (s: string)
    ensures qc.fn != "" ==> s == qc.fn + "(\"" + qc.fieldName + "\")"
    ensures qc.fn == "" && IsPureField(qc.fieldName) ==> s == "\"" + qc.fieldName + "\""
    ensures qc.fn == "" && !IsPureField(qc.fieldName) ==> s == qc.fieldName
  {
    if qc.fn != "" then qc.fn + "(\"" + qc.fieldName + "\")"
    else if IsPureField(qc.fieldName) then "\"" + qc.fieldName + "\""
    else qc.fieldName
  }

  /** QueryColumn.String: ` AS alias` only when there is an alias and the
      first optional flag is given and true. */
  function ColumnString(qc: QueryColumn, asFlag: seq<bool>): (s: string)
    ensures !(qc.alias != "" && |asFlag| > 0 && asFlag[0]) ==> s == ColumnExpr(qc)
    ensures qc.alias != "" && |asFlag| > 0 && asFlag[0] ==> s == ColumnExpr(qc) + " AS " + qc.alias
  {
    var s := ColumnExpr(qc);
    if qc.alias != "" && |asFlag| > 0 && asFlag[0] then s + " AS " + qc.alias else s
  }

  // ---- makeQueryOrder and Where (query.go:114-135) ----

  /** The text an order is written as: a leading '-' for descending. */
  function OrderText(o: QueryOrder): string
  {
    (if o.kind == OrderDesc then "-" else "") + o.field
  }

  /** makeQueryOrder. `s[:1]` on an empty string is a run-time panic. */
  function MakeQueryOrder(s: string): (r: Result<QueryOrder>)
    ensures r.Panic? <==> s == ""
    ensures r.Ok? ==> OrderText(r.value) == s
    ensures r.Ok? ==> (r.value.kind == OrderDesc <==> s[0] == '-') && (r.value.kind == OrderDesc || r.value.kind == OrderAsc)
  {
    if |s| < 1 then Panic("slice bounds out of range")
    else if s[..1] == "-" then Ok(QueryOrder(OrderDesc, s[1..]))
    else Ok(QueryOrder(OrderAsc, s))
  }

  /** A filter built by Where/And/Or: operator `=` unless given, function
      only when a second option is given. */
  function MakeFilter(cond: nat, field: string, val: Value, ops: seq<string>): (f: QueryFilter)
    ensures f.condition == cond && f.field == field && f.value == val && !f.reversed
    ensures f.operator == if |ops| > 0 then ops[0] else "="
    ensures f.fn == if |ops| > 1 then ops[1] else ""
  {
    var f := QueryFilter(cond, false, field, "=", "", val);
    if |ops| > 0 then
      if |ops| > 1 then f.(operator := ops[0], fn := ops[1]) else f.(operator := ops[0])
    else f
  }

  /** The free function Where (query.go:126-135) builds an AND filter. */
  function WhereFilter(field: string, val: Value, ops: seq<string>): (f: QueryFilter)
    ensures f == MakeFilter(ConditionAnd, field, val, ops)
  {
    QueryFilter(ConditionAnd, false, field, if |ops| > 0 then ops[0] else "=", if |ops| > 1 then ops[1] else "", val)
  }

  // ---- Filter and OrderBy arguments ----

  /** One argument of QuerySet.Filter. A map is given as its entries in the
      order Go's `range` visits them. */
  datatype FilterArg =
    | RawFilter(text: string)
    | MapFilter(entries: seq<(string, Value)>)
    | FilterPtr(f: QueryFilter)
    | FilterValue(f: QueryFilter)
    | OtherFilter

  /** The filters one accepted argument adds (query.go:180-195). */
  function FiltersOf(a: FilterArg): (fs: seq<QueryFilter>)
    requires !a.OtherFilter?
    ensures a.RawFilter? ==> fs == [QueryFilter(ConditionAnd, false, a.text, "", "", VNil)]
    ensures a.MapFilter? ==> |fs| == |a.entries| && forall k :: 0 <= k < |fs| ==>
      fs[k] == QueryFilter(ConditionAnd, false, a.entries[k].0, "=", "", a.entries[k].1)
    ensures (a.FilterPtr? || a.FilterValue?) ==> fs == [a.f]
  {
    match a
    case RawFilter(text) => [QueryFilter(ConditionAnd, false, text, "", "", VNil)]
    case MapFilter(entries) =>
      seq(|entries|, k requires 0 <= k < |entries| => QueryFilter(ConditionAnd, false, entries[k].0, "=", "", entries[k].1))
    case FilterPtr(f) => [f]
    case FilterValue(f) => [f]
  }

  /** The filters all arguments add, or None when one of them has an
      unsupported type. */
  function FiltersOfAll(cons: seq<FilterArg>): Option<seq<QueryFilter>>
  {
    if cons == [] then Some([])
    else
      var init := FiltersOfAll(cons[..|cons| - 1]);
      var last := cons[|cons| - 1];
      if init.None? || last.OtherFilter? then None else Some(init.value + FiltersOf(last))
  }

  /** One more supported argument adds its filters to the list. */
  lemma FiltersOfAllStep(cons: seq<FilterArg>, i: nat)
    requires i < |cons| && FiltersOfAll(cons[..i]).Some? && !cons[i].OtherFilter?
    ensures FiltersOfAll(cons[..i + 1]) == Some(FiltersOfAll(cons[..i]).value + FiltersOf(cons[i]))
  {
    assert cons[..i + 1][..i] == cons[..i];
  }

  lemma AppendAssoc<T>(a: seq<T>, b: seq<T>, c: seq<T>)
    ensures a + b + c == a + (b + c)
  {
  }

  /** Filter panics exactly when some argument has an unsupported type. */
  lemma {:induction false} FiltersOfAllPanics(cons: seq<FilterArg>)
    ensures FiltersOfAll(cons).None? <==> exists k :: 0 <= k < |cons| && cons[k].OtherFilter?
  {
    if cons != [] {
      var init := cons[..|cons| - 1];
      FiltersOfAllPanics(init);
      if exists k :: 0 <= k < |init| && init[k].OtherFilter? {
        var k :| 0 <= k < |init| && init[k].OtherFilter?;
        assert cons[k] == init[k];
      }
      if exists k :: 0 <= k < |cons| && cons[k].OtherFilter? {
        var k :| 0 <= k < |cons| && cons[k].OtherFilter?;
        if k < |init| { assert init[k] == cons[k]; }
      }
    }
  }

  /** One argument of QuerySet.OrderBy. */
  datatype OrderArg =
    | OrderString(s: string)
    | OrderPtr(o: QueryOrder)
    | OrderValue(o: QueryOrder)
    | OtherOrder

  function OrderOf(a: OrderArg): (r: Result<QueryOrder>)
  {
    match a
    case OrderString(s) => MakeQueryOrder(s)
    case OrderPtr(o) => Ok(o)
    case OrderValue(o) => Ok(o)
    case OtherOrder => Panic("Not supported parameter type.")
  }

  /** The orders all arguments add, in order; the first failing argument panics. */
  function OrdersOfAll(args: seq<OrderArg>): (r: Result<seq<QueryOrder>>)
    ensures r.Ok? ==> |r.value| == |args|
    ensures r.Ok? ==> forall k :: 0 <= k < |args| ==> OrderOf(args[k]) == Ok(r.value[k])
    ensures !r.Error?
  {
    if args == [] then Ok([])
    else
      var init := OrdersOfAll(args[..|args| - 1]);
      var last := OrderOf(args[|args| - 1]);
      if !init.Ok? then init
      else if !last.Ok? then Panic(last.msg)
      else Ok(init.value + [last.value])
  }

  /** What QuerySet.Count hands to the dialect's Select. */
  datatype SelectCall = SelectCall(
    columns: seq<QueryColumn>,
    filters: seq<QueryFilter>,
    orders: seq<QueryOrder>,
    lockFor: string,
    offset: int,
    limit: int)

  /** An argument of QuerySet.Update. A map is given as its entries in the
      order Go's `range` visits them. */
  datatype UpdateArg =
    | UpdateMap(entries: seq<(string, Value)>)
    | UpdateList(cols: seq<UpdateColumn>)
    | UpdateRecord(rec: Record)
    | UpdateOther

  /** The QuerySet (query.go:32-41), without its session: it is passed and
      returned by value. `offset` and `limit` are -1 when unset. */
  datatype QuerySet = QuerySet(
    table: Table,
    queries: seq<QueryColumn>,
    filters: seq<QueryFilter>,
    orders: seq<QueryOrder>,
    lockFor: string,
    offset: int,
    limit: int)
  {
    /** query.go:137-147: one AND filter is appended; nothing else changes. */
    function Where(field: string, val: Value, ops: seq<string>): (r: QuerySet)
      ensures r.filters == filters + [MakeFilter(ConditionAnd, field, val, ops)]
      ensures r.(filters := filters) == this
    {
      this.(filters := filters + [MakeFilter(ConditionAnd, field, val, ops)])
    }

    /** query.go:149-159: the same as Where. */
    function And(field: string, val: Value, ops: seq<string>): (r: QuerySet)
      ensures r == Where(field, val, ops)
    {
      this.(filters := filters + [MakeFilter(ConditionAnd, field, val, ops)])
    }

    /** query.go:161-171: one OR filter is appended; nothing else changes. */
    function Or(field: string, val: Value, ops: seq<string>): (r: QuerySet)
      ensures r.filters == filters + [MakeFilter(ConditionOr, field, val, ops)]
      ensures r.(filters := filters) == this
    {
      this.(filters := filters + [MakeFilter(ConditionOr, field, val, ops)])
    }

    /** query.go:173-176: only the lock changes. */
    function LockFor(s: string): (r: QuerySet)
      ensures r.lockFor == s && r.(lockFor := lockFor) == this
    {
      this.(lockFor := s)
    }

    /** query.go:220-223: only the offset changes. */
    function Offset(offset: int): (r: QuerySet)
      ensures r.offset == offset && r.(offset := this.offset) == this
    {
      this.(offset := offset)
    }

    /** query.go:225-228: only the limit changes. */
    function Limit(limit: int): (r: QuerySet)
      ensures r.limit == limit && r.(limit := this.limit) == this
    {
      this.(limit := limit)
    }

    /** query.go:178-201. The filters of the arguments are appended in order;
        an argument of another type panics. */
    method Filter(cons: seq<FilterArg>) returns (r: Result<QuerySet>)
      ensures FiltersOfAll(cons).None? ==> r.Panic?
      ensures FiltersOfAll(cons).Some? ==> r == Ok(this.(filters := filters + FiltersOfAll(cons).value))
    {
      var fs := filters;
      var i := 0;
      while i < |cons|
        invariant 0 <= i <= |cons|
        invariant FiltersOfAll(cons[..i]).Some? && fs == filters + FiltersOfAll(cons[..i]).value
      {
        var con := cons[i];
        ghost var acc := FiltersOfAll(cons[..i]).value;
        if con.RawFilter? {
          fs := fs + [QueryFilter(ConditionAnd, false, con.text, "", "", VNil)];
        } else if con.MapFilter? {
          var before := fs;
          var j := 0;
          while j < |con.entries|
            invariant 0 <= j <= |con.entries|
            invariant fs == before + FiltersOf(con)[..j]
          {
            var (k, v) := con.entries[j];
            assert FiltersOf(con)[..j + 1] == FiltersOf(con)[..j] + [QueryFilter(ConditionAnd, false, k, "=", "", v)];
            fs := fs + [QueryFilter(ConditionAnd, false, k, "=", "", v)];
            j := j + 1;
          }
          assert FiltersOf(con)[..j] == FiltersOf(con);
        } else if con.FilterPtr? {
          fs := fs + [con.f];
        } else if con.FilterValue? {
          fs := fs + [con.f];
        } else {
          FiltersOfAllPanics(cons);
          return Panic("Unknow Filter!");
        }
        assert fs == filters + acc + FiltersOf(con);
        FiltersOfAllStep(cons, i);
        AppendAssoc(filters, acc, FiltersOf(con));
        i := i + 1;
      }
      assert cons[..i] == cons;
      return Ok(this.(filters := fs));
    }

    /** query.go:203-218. The orders of the arguments are appended in order;
        an argument of another type, or an empty order string, panics. */
    method OrderBy(args: seq<OrderArg>) returns (r: Result<QuerySet>)
      ensures OrdersOfAll(args).Panic? ==> r.Panic?
      ensures OrdersOfAll(args).Ok? ==> r == Ok(this.(orders := orders + OrdersOfAll(args).value))
    {
      var os := orders;
      var i := 0;
      while i < |args|
        invariant 0 <= i <= |args|
        invariant OrdersOfAll(args[..i]).Ok? && os == orders + OrdersOfAll(args[..i]).value
      {
        var x := args[i];
        assert args[..i + 1][..i] == args[..i];
        if x.OrderString? {
          var qo := MakeQueryOrder(x.s);
          if !qo.Ok? {
            OrdersFailFrom(args, i);
            return Panic(qo.msg);
          }
          os := os + [qo.value];
        } else if x.OrderPtr? {
          os := os + [x.o];
        } else if x.OrderValue? {
          os := os + [x.o];
        } else {
          OrdersFailFrom(args, i);
          return Panic("Not supported parameter type.");
        }
        i := i + 1;
      }
      assert args[..i] == args;
      return Ok(this.(orders := os));
    }

    /** query.go:230-241: the counted field is the first argument, else the
        first primary key, else the first column; a table with neither
        panics on the index. */
    function Count(cols: seq<string>): (r: Result<SelectCall>)
      reads table
      ensures r.Panic? <==> |cols| == 0 && |table.primaryKeys| == 0 && |table.columns| == 0
      ensures r.Ok? ==> r.value == SelectCall([QueryColumn(CountField(cols), "COUNT", "")], filters, [], lockFor, -1, -1)
    {
      if |cols| > 0 || |table.primaryKeys| > 0 || |table.columns| > 0 then
        Ok(SelectCall([QueryColumn(CountField(cols), "COUNT", "")], filters, [], lockFor, -1, -1))
      else Panic("index out of range")
    }

    function CountField(cols: seq<string>): string
      reads table
    {
      if |cols| > 0 then cols[0]
      else if |table.primaryKeys| > 0 then table.primaryKeys[0].info.fieldName
      else if |table.columns| > 0 then table.columns[0].info.fieldName
      else ""
    }

    /** The projection All/One/Get use: the chosen columns, or else every
        column of the element-name map once, aliased to its field name, in
        the order `order` visits the map. */
    function Projection(order: seq<string>): (p: seq<QueryColumn>)
      reads table
      requires Enumerates(order, table.mColumns)
      ensures |queries| > 0 ==> p == queries
      ensures |queries| == 0 ==> |p| == |order| == |table.mColumns|
      ensures |queries| == 0 ==> forall k :: 0 <= k < |order| ==>
        order[k] in table.mColumns && p[k] == MappedColumn(table.mColumns[order[k]])
    {
      if |queries| > 0 then queries
      else
        MappedProjectionExact(table.mColumns, order);
        MappedProjection(table.mColumns, order)
    }

    /** query.go:253-263: All selects the projection with the filters,
        orders, lock and paging of the query set. */
    function All(order: seq<string>): (c: SelectCall)
      reads table
      requires Enumerates(order, table.mColumns)
      ensures c.filters == filters && c.orders == orders && c.lockFor == lockFor
      ensures c.offset == offset && c.limit == limit
      ensures |queries| > 0 ==> c.columns == queries
      ensures |queries| == 0 ==> |c.columns| == |order| == |table.mColumns|
      ensures |queries| == 0 ==> forall k :: 0 <= k < |order| ==>
        order[k] in table.mColumns && c.columns[k] == MappedColumn(table.mColumns[order[k]])
    {
      SelectCall(Projection(order), filters, orders, lockFor, offset, limit)
    }

    /** query.go:272-282: One selects at most one row. */
    function One(order: seq<string>): (c: SelectCall)
      reads table
      requires Enumerates(order, table.mColumns)
      ensures c.limit == 1 && c == All(order).(limit := 1)
    {
      SelectCall(Projection(order), filters, orders, lockFor, offset, 1)
    }

    /** query.go:289-310. Get panics unless there is one key value per
        primary key; the filters are replaced by one `=` filter per key. */
    method Get(pks: seq<Value>, order: seq<string>) returns (r: Result<SelectCall>)
      requires Enumerates(order, table.mColumns)
      ensures |pks| != |table.primaryKeys| ==> r.Panic?
      ensures |pks| == |table.primaryKeys| ==>
        r == Ok(SelectCall(Projection(order), KeyFilters(table.primaryKeys, pks), orders, lockFor, offset, 1))
    {
      var qs := Projection(order);
      if |pks| != |table.primaryKeys| {
        return Panic("Primary Key number not match!");
      }
      var fs: seq<QueryFilter> := [];
      var i := 0;
      while i < |pks|
        invariant 0 <= i <= |pks|
        invariant fs == KeyFilters(table.primaryKeys[..i], pks[..i])
      {
        assert table.primaryKeys[..i + 1][..i] == table.primaryKeys[..i];
        assert pks[..i + 1][..i] == pks[..i];
        fs := fs + [QueryFilter(ConditionAnd, false, table.primaryKeys[i].info.fieldName, "=", "", pks[i])];
        i := i + 1;
      }
      assert table.primaryKeys[..i] == table.primaryKeys && pks[..i] == pks;
      return Ok(SelectCall(qs, fs, orders, lockFor, offset, 1));
    }

    /** query.go:317-350: the update columns handed to the dialect. */
    method UpdateColumns(vals: UpdateArg) returns (r: Result<seq<UpdateColumn>>)
      ensures r == UpdateColumnsOf(table, vals)
    {
      if vals.UpdateMap? {
        var cols: seq<UpdateColumn> := [];
        var i := 0;
        while i < |vals.entries|
          invariant 0 <= i <= |vals.entries|
          invariant MapUpdates(table, vals.entries[..i]) == Ok(cols)
        {
          var (k, v) := vals.entries[i];
          assert vals.entries[..i + 1][..i] == vals.entries[..i];
          var fk := ResolveUpdateKey(table, k);
          if fk.None? {
            MapUpdatesStopsAt(table, vals.entries, i);
            return Error("Invalid column:" + k);
          }
          cols := cols + [UpdateColumn(fk.value, "=", v)];
          i := i + 1;
        }
        assert vals.entries[..i] == vals.entries;
        return Ok(cols);
      } else if vals.UpdateList? {
        return Ok(vals.cols);
      } else if vals.UpdateRecord? && vals.rec.typeName == table.entity.typeName {
        var cols: seq<UpdateColumn> := [];
        var i := 0;
        while i < |table.columns|
          invariant 0 <= i <= |table.columns|
          invariant RecordUpdates(table.columns[..i], vals.rec) == Ok(cols)
        {
          var col := table.columns[i];
          assert table.columns[..i + 1][..i] == table.columns[..i];
          if !col.info.primaryKey {
            if col.info.elemName !in vals.rec.fields {
              RecordUpdatesStopsAt(table.columns, vals.rec, i);
              return Panic(ReflectPanic);
            }
            var fv := vals.rec.fields[col.info.elemName];
            if fv != VPtr(true) {
              cols := cols + [UpdateColumn(col.info.fieldName, "=", fv)];
            }
          }
          i := i + 1;
        }
        assert table.columns[..i] == table.columns;
        return Ok(cols);
      }
      return Ok([]);
    }

    /** query.go:414-430: the column names Insert passes to the dialect. */
    function InsertColumns(): (cols: seq<string>)
      ensures |cols| == |queries| && forall k :: 0 <= k < |cols| ==> cols[k] == queries[k].fieldName
    {
      seq(|queries|, k requires 0 <= k < |queries| => queries[k].fieldName)
    }

    /** query.go:414-447. The objects are handed to the dialect one after
        another; the first one of another type than the entity stops the
        loop with an error, after the ones before it. */
    method Insert(objs: seq<Record>) returns (inserted: seq<Record>, err: Option<string>)
      ensures InsertPlan(table.entity.typeName, objs) == (inserted, err)
    {
      inserted := [];
      var i := 0;
      while i < |objs|
        invariant 0 <= i <= |objs|
        invariant inserted == objs[..i]
        invariant forall k :: 0 <= k < i ==> objs[k].typeName == table.entity.typeName
      {
        var obj := objs[i];
        if obj.typeName != table.entity.typeName {
          InsertPlanAt(table.entity.typeName, objs, i);
          return inserted, Some("Invalid data type: " + obj.typeName + " <> " + table.entity.typeName);
        }
        inserted := inserted + [obj];
        i := i + 1;
      }
      assert objs[..i] == objs;
      InsertPlanAll(table.entity.typeName, objs);
      return inserted, None;
    }

    /** query.go:383-397: one object, which must have the entity's type. */
    function InsertWithInsertedId(obj: Record, idName: string): (r: Result<(Record, string, seq<string>)>)
      reads table
      ensures r.Ok? <==> obj.typeName == table.entity.typeName
      ensures r.Ok? ==> r.value == (obj, idName, InsertColumns())
      ensures !r.Panic?
    {
      if obj.typeName != table.entity.typeName then
        Error("Invalid data type: " + obj.typeName + " <> " + table.entity.typeName)
      else Ok((obj, idName, InsertColumns()))
    }
  }

  /** OrdersOfAll fails as soon as one argument does. */
  lemma OrdersFailFrom(args: seq<OrderArg>, i: nat)
    requires i < |args| && OrdersOfAll(args[..i]).Ok? && !OrderOf(args[i]).Ok?
    ensures OrdersOfAll(args).Panic?
  {
    var r := OrdersOfAll(args);
    if r.Ok? {
      assert false;
    }
  }

  /** A mapped column as the default projection selects it: by field name,
      aliased to that name. */
  function MappedColumn(c: Column): QueryColumn
  {
    QueryColumn(c.info.fieldName, "", c.info.fieldName)
  }

  /** The default projection: every mapped column, aliased to its own name,
      for each name of `order` that the map holds. */
  function MappedProjection(m: map<string, Column>, order: seq<string>): (p: seq<QueryColumn>)
    ensures |p| <= |order|
    ensures forall k :: 0 <= k < |p| ==> p[k].fn == "" && p[k].alias == p[k].fieldName
  {
    if order == [] then []
    else
      var init := MappedProjection(m, order[..|order| - 1]);
      var name := order[|order| - 1];
      if name in m then init + [MappedColumn(m[name])] else init
  }

  /** When every visited name is mapped, the projection has one column per
      name, in the order visited. */
  lemma {:induction false} MappedProjectionAllKnown(m: map<string, Column>, order: seq<string>)
    requires forall k :: 0 <= k < |order| ==> order[k] in m
    ensures |MappedProjection(m, order)| == |order|
    ensures forall k :: 0 <= k < |order| ==> MappedProjection(m, order)[k] == MappedColumn(m[order[k]])
  {
    if order != [] {
      MappedProjectionAllKnown(m, order[..|order| - 1]);
    }
  }

  /** query.go:254-257: when `order` enumerates the map, every mapped column
      is selected exactly once. */
  lemma MappedProjectionExact(m: map<string, Column>, order: seq<string>)
    requires Enumerates(order, m)
    ensures |MappedProjection(m, order)| == |order| == |m|
    ensures forall k :: 0 <= k < |order| ==>
      order[k] in m && MappedProjection(m, order)[k] == MappedColumn(m[order[k]])
  {
    EnumeratesCard(order, m);
    MappedProjectionAllKnown(m, order);
  }

  /** Every mapped column whose name is visited appears in the projection. */
  lemma {:induction false} MappedProjectionCovers(m: map<string, Column>, order: seq<string>, name: string)
    requires name in m && name in order
    ensures QueryColumn(m[name].info.fieldName, "", m[name].info.fieldName) in MappedProjection(m, order)
  {
    var init := order[..|order| - 1];
    if name != order[|order| - 1] {
      assert name in init by {
        var k :| 0 <= k < |order| && order[k] == name;
        assert init[k] == name;
      }
      MappedProjectionCovers(m, init, name);
    }
  }

  /** One `=` filter per primary key, pairing each key with its value. */
  function KeyFilters(keys: seq<Column>, vals: seq<Value>): (fs: seq<QueryFilter>)
    requires |keys| == |vals|
    ensures |fs| == |keys|
    ensures forall k :: 0 <= k < |fs| ==> fs[k] == QueryFilter(ConditionAnd, false, keys[k].info.fieldName, "=", "", vals[k])
  {
    if keys == [] then []
    else
      var last := QueryFilter(ConditionAnd, false, keys[|keys| - 1].info.fieldName, "=", "", vals[|vals| - 1]);
      KeyFilters(keys[..|keys| - 1], vals[..|vals| - 1]) + [last]
  }

  /** query.go:323-331: a map key is resolved as a field name, then as an
      element name, then as a JSON tag, to the column's field name. */
  function ResolveUpdateKey(t: Table, k: string): (r: Option<string>)
    reads t
    ensures r.Some? <==> k in t.xColumns || k in t.mColumns || k in t.jColumns
    ensures k in t.xColumns ==> r == Some(t.xColumns[k].info.fieldName)
    ensures k !in t.xColumns && k in t.mColumns ==> r == Some(t.mColumns[k].info.fieldName)
  {
    if k in t.xColumns then Some(t.xColumns[k].info.fieldName)
    else if k in t.mColumns then Some(t.mColumns[k].info.fieldName)
    else if k in t.jColumns then Some(t.jColumns[k].info.fieldName)
    else None
  }

  /** The update columns of a map, or the error for its first unknown key. */
  function MapUpdates(t: Table, entries: seq<(string, Value)>): (r: Result<seq<UpdateColumn>>)
    reads t
    ensures !r.Panic?
    ensures r.Ok? ==> |r.value| == |entries|
  {
    if entries == [] then Ok([])
    else
      var init := MapUpdates(t, entries[..|entries| - 1]);
      var (k, v) := entries[|entries| - 1];
      if !init.Ok? then init
      else if ResolveUpdateKey(t, k).None? then Error("Invalid column:" + k)
      else Ok(init.value + [UpdateColumn(ResolveUpdateKey(t, k).value, "=", v)])
  }

  /** A map update succeeds exactly when every key resolves, and then sets
      each resolved column, in entry order, to its value with `=`. */
  lemma {:induction false} MapUpdatesMeaning(t: Table, entries: seq<(string, Value)>)
    ensures MapUpdates(t, entries).Ok? <==> forall k :: 0 <= k < |entries| ==> ResolveUpdateKey(t, entries[k].0).Some?
    ensures MapUpdates(t, entries).Ok? ==> forall k :: 0 <= k < |entries| ==>
      MapUpdates(t, entries).value[k] == UpdateColumn(ResolveUpdateKey(t, entries[k].0).value, "=", entries[k].1)
  {
    if entries != [] {
      var init := entries[..|entries| - 1];
      MapUpdatesMeaning(t, init);
      assert forall k :: 0 <= k < |init| ==> init[k] == entries[k];
    }
  }

  /** The first unknown key of a map stops the update with its error. */
  lemma MapUpdatesStopsAt(t: Table, entries: seq<(string, Value)>, i: nat)
    requires i < |entries| && MapUpdates(t, entries[..i]).Ok? && ResolveUpdateKey(t, entries[i].0).None?
    ensures MapUpdates(t, entries) == Error("Invalid column:" + entries[i].0)
  {
    MapUpdatesStopsFrom(t, entries, i, |entries|);
    assert entries[..|entries|] == entries;
  }

  lemma {:induction false} MapUpdatesStopsFrom(t: Table, entries: seq<(string, Value)>, i: nat, n: nat)
    requires i < n <= |entries| && MapUpdates(t, entries[..i]).Ok? && ResolveUpdateKey(t, entries[i].0).None?
    ensures MapUpdates(t, entries[..n]) == Error("Invalid column:" + entries[i].0)
    decreases n
  {
    var pre := entries[..n];
    assert pre[..n - 1] == entries[..n - 1];
    if n - 1 > i {
      MapUpdatesStopsFrom(t, entries, i, n - 1);
    } else {
      assert pre[n - 1] == entries[i];
    }
  }

  /** The update columns of a record: every column that is not a primary
      key and whose value is not a nil pointer. A column whose field the
      record lacks makes reflection panic. */
  function RecordUpdates(cols: seq<Column>, rec: Record): (r: Result<seq<UpdateColumn>>)
    ensures !r.Error?
    ensures r.Ok? ==> |r.value| <= |cols|
  {
    if cols == [] then Ok([])
    else
      var init := RecordUpdates(cols[..|cols| - 1], rec);
      var col := cols[|cols| - 1];
      if !init.Ok? || col.info.primaryKey then init
      else if col.info.elemName !in rec.fields then Panic(ReflectPanic)
      else if rec.fields[col.info.elemName] == VPtr(true) then init
      else Ok(init.value + [UpdateColumn(col.info.fieldName, "=", rec.fields[col.info.elemName])])
  }

  /** Reflection's panic on the field a value lacks. */
  const ReflectPanic := "reflect: call of reflect.Value.Type on zero Value"

  /** The first non-key column the record lacks stops the update with a panic. */
  lemma RecordUpdatesStopsAt(cols: seq<Column>, rec: Record, i: nat)
    requires i < |cols| && RecordUpdates(cols[..i], rec).Ok?
    requires !cols[i].info.primaryKey && cols[i].info.elemName !in rec.fields
    ensures RecordUpdates(cols, rec) == Panic(ReflectPanic)
  {
    RecordUpdatesStopsFrom(cols, rec, i, |cols|);
    assert cols[..|cols|] == cols;
  }

  lemma {:induction false} RecordUpdatesStopsFrom(cols: seq<Column>, rec: Record, i: nat, n: nat)
    requires i < n <= |cols| && RecordUpdates(cols[..i], rec).Ok?
    requires !cols[i].info.primaryKey && cols[i].info.elemName !in rec.fields
    ensures RecordUpdates(cols[..n], rec) == Panic(ReflectPanic)
    decreases n
  {
    var pre := cols[..n];
    assert pre[..n - 1] == cols[..n - 1];
    if n - 1 > i {
      RecordUpdatesStopsFrom(cols, rec, i, n - 1);
    } else {
      assert pre[n - 1] == cols[i];
    }
  }

  /** `u` sets column `c` of the record: a non-key column whose value is
      present and not a nil pointer, set with `=`. */
  predicate SetsColumn(c: Column, rec: Record, u: UpdateColumn)
  {
    !c.info.primaryKey && c.info.elemName in rec.fields && rec.fields[c.info.elemName] != VPtr(true)
    && u == UpdateColumn(c.info.fieldName, "=", rec.fields[c.info.elemName])
  }

  /** Every update column of a record sets one of the table's columns; no
      primary key and no nil pointer is ever set. */
  lemma {:induction false} RecordUpdatesSkipKeys(cols: seq<Column>, rec: Record)
    requires RecordUpdates(cols, rec).Ok?
    ensures forall k :: 0 <= k < |RecordUpdates(cols, rec).value| ==>
      exists j :: 0 <= j < |cols| && SetsColumn(cols[j], rec, RecordUpdates(cols, rec).value[k])
  {
    if cols != [] {
      var init := cols[..|cols| - 1];
      var last := cols[|cols| - 1];
      assert RecordUpdates(init, rec).Ok?;
      RecordUpdatesSkipKeys(init, rec);
      var ri := RecordUpdates(init, rec).value;
      var r := RecordUpdates(cols, rec).value;
      forall k | 0 <= k < |r|
        ensures exists j :: 0 <= j < |cols| && SetsColumn(cols[j], rec, r[k])
      {
        if k < |ri| {
          assert r[k] == ri[k];
          var j :| 0 <= j < |init| && SetsColumn(init[j], rec, ri[k]);
          assert cols[j] == init[j];
        } else {
          assert r == ri + [UpdateColumn(last.info.fieldName, "=", rec.fields[last.info.elemName])];
          assert SetsColumn(cols[|cols| - 1], rec, r[k]);
        }
      }
    }
  }

  /** What QuerySet.Update hands to the dialect: a map is resolved key by
      key, a column list is used as is, a value of the entity's type gives
      its non-key, non-nil fields, and anything else gives no columns (which
      the dialect then rejects). */
  function UpdateColumnsOf(t: Table, vals: UpdateArg): (r: Result<seq<UpdateColumn>>)
    reads t
  {
    match vals
    case UpdateMap(entries) => MapUpdates(t, entries)
    case UpdateList(cols) => Ok(cols)
    case UpdateRecord(rec) => if rec.typeName == t.entity.typeName then RecordUpdates(t.columns, rec) else Ok([])
    case UpdateOther => Ok([])
  }

  /** The objects Insert hands to the dialect, and its error, if any. */
  function InsertPlan(typeName: string, objs: seq<Record>): (r: (seq<Record>, Option<string>))
    ensures r.1.None? <==> forall k :: 0 <= k < |objs| ==> objs[k].typeName == typeName
    ensures r.1.None? ==> r.0 == objs
    ensures r.1.Some? ==> exists i :: 0 <= i < |objs| && r.0 == objs[..i] && objs[i].typeName != typeName
    decreases |objs|
  {
    if objs == [] then ([], None)
    else if objs[0].typeName != typeName then
      assert objs[..0] == [];
      ([], Some("Invalid data type: " + objs[0].typeName + " <> " + typeName))
    else
      var rest := InsertPlan(typeName, objs[1..]);
      if rest.1.Some? then
        var i :| 0 <= i < |objs[1..]| && rest.0 == objs[1..][..i] && objs[1..][i].typeName != typeName;
        assert [objs[0]] + rest.0 == objs[..i + 1];
        ([objs[0]] + rest.0, rest.1)
      else
        assert forall k :: 1 <= k < |objs| ==> objs[k] == objs[1..][k - 1];
        ([objs[0]] + rest.0, rest.1)
  }

  lemma {:induction false} InsertPlanAt(typeName: string, objs: seq<Record>, i: nat)
    requires i < |objs| && objs[i].typeName != typeName
    requires forall k :: 0 <= k < i ==> objs[k].typeName == typeName
    ensures InsertPlan(typeName, objs) == (objs[..i], Some("Invalid data type: " + objs[i].typeName + " <> " + typeName))
  {
    if i > 0 {
      InsertPlanAt(typeName, objs[1..], i - 1);
      assert [objs[0]] + objs[1..][..i - 1] == objs[..i];
    }
  }

  lemma InsertPlanAll(typeName: string, objs: seq<Record>)
    requires forall k :: 0 <= k < |objs| ==> objs[k].typeName == typeName
    ensures InsertPlan(typeName, objs) == (objs, None)
  {
  }

  /** Reading an order back from its text gives the same order. */
  lemma MakeQueryOrderOfText(o: QueryOrder)
    requires o.kind == OrderAsc || o.kind == OrderDesc
    requires o.kind == OrderAsc ==> o.field != "" && o.field[0] != '-'
    ensures MakeQueryOrder(OrderText(o)) == Ok(o)
  {
    var s := OrderText(o);
    if o.kind == OrderDesc {
      assert s[..1] == "-" && s[1..] == o.field;
    } else {
      assert s == o.field;
      assert s[..1] != "-" by { assert s[..1][0] == s[0]; }
    }
  }
}
