/** Columns, constraints and indexes, and the builders of constraint.go and
    index.go that derive constraints and indexes from column properties. */
module SchemaTypes {
  import opened Wrappers
  import opened Tags

  newtype uint8 = x: int | 0 <= x < 256

  // constraint.go:11-20
  const ConstraintNone: uint8 := 0
  const ConstraintCheck: uint8 := 1
  const ConstraintNotNull: uint8 := 2
  const ConstraintUnique: uint8 := 3
  const ConstraintPrimaryKey: uint8 := 4
  const ConstraintForeignKey: uint8 := 5
  const ConstraintExclude: uint8 := 6
  const ConstraintInvalid: uint8 := 7

  // index.go:3-12
  const IndexNone: uint8 := 0
  const IndexBTree: uint8 := 1
  const IndexHash: uint8 := 2
  const IndexGist: uint8 := 3
  const IndexSpGist: uint8 := 4
  const IndexGin: uint8 := 5
  const IndexBrin: uint8 := 6
  const IndexInvalid: uint8 := 7

  /** The attributes of one column. In Go a constraint points back at the
      Column that owns it; here it holds that column's attributes. */
  datatype ColumnInfo = ColumnInfo(
    fieldName: string,         // storage name
    elemName: string,          // name of the Go struct field
    jtag: string,              // JSON tag
    typeDefine: string,        // SQL type declaration
    default: Option<string>,   // DEFAULT expression, if any
    primaryKey: bool,
    auto: bool,
    props: PropertySet)        // the parsed `xql` annotation

  datatype Constraint = Constraint(
    kind: uint8,
    columns: seq<ColumnInfo>,
    statement: string,
    onDelete: string,
    onUpdate: string)

  /** An index; `name` is the identifier the dialect prints. */
  datatype Index = Index(kind: uint8, name: string, columns: seq<ColumnInfo>)

  /** A column together with the constraints and indexes attached to it. */
  datatype Column = Column(info: ColumnInfo, constraints: seq<Constraint>, indexes: seq<Index>)

  /** One variadic `interface{}` argument of makeConstraints / makeIndexes. */
  datatype FieldArg =
    | NilArg
    | ColumnArg(c: ColumnInfo)
    | ColumnListArg(cs: seq<ColumnInfo>)
    | OtherArg

  function ToSeq<T>(o: Option<T>): (r: seq<T>)
    ensures |r| <= 1 && (o.Some? <==> |r| == 1) && (o.Some? ==> r[0] == o.value)
  {
    if o.Some? then [o.value] else []
  }

  /** A property that is present and not empty. */
  predicate HasText(props: PropertySet, k: string) { k in props && props[k] != "" }

  // ---- makeConstraints (constraint.go:31-73) ----

  predicate ValidConstraintKind(t: uint8) { ConstraintNone < t < ConstraintInvalid }

  /** The constraint one argument yields, if any (constraint.go:37-70). */
  function ConstraintFor(t: uint8, f: FieldArg): (r: Option<Constraint>)
    ensures r.Some? ==> r.value.kind == t
    ensures (f.NilArg? || f.OtherArg?) ==> r.None?
    ensures f.ColumnListArg? ==> r == Some(Constraint(t, f.cs, "", "", ""))
    ensures f.ColumnArg? && t == ConstraintCheck ==>
      r == if HasText(f.c.props, "check") then Some(Constraint(t, [f.c], f.c.props["check"], "", "")) else None
    ensures f.ColumnArg? && t == ConstraintForeignKey ==>
      (r.Some? <==> HasText(f.c.props, "fk") || HasText(f.c.props, "foreignkey")) &&
      (r.Some? ==>
        r.value.columns == [f.c] &&
        r.value.statement == (if HasText(f.c.props, "fk") then f.c.props["fk"] else f.c.props["foreignkey"]) &&
        r.value.onDelete == GetString(f.c.props, "ondelete", []).0 &&
        r.value.onUpdate == GetString(f.c.props, "onupdate", []).0)
    ensures f.ColumnArg? && t == ConstraintExclude ==>
      r == Some(Constraint(t, [f.c], if HasText(f.c.props, "exclude") then f.c.props["exclude"] else "", "", ""))
    ensures f.ColumnArg? && t != ConstraintCheck && t != ConstraintForeignKey && t != ConstraintExclude ==>
      r == Some(Constraint(t, [f.c], "", "", ""))
  {
    match f
    case NilArg => None
    case OtherArg => None
    case ColumnListArg(cs) => Some(Constraint(t, cs, "", "", ""))
    case ColumnArg(c) =>
      var base := Constraint(t, [c], "", "", "");
      if t == ConstraintExclude then
        var (exclude, ok) := GetString(c.props, "exclude", []);
        Some(if ok && exclude != "" then base.(statement := exclude) else base)
      else if t == ConstraintCheck then
        var (check, ok) := GetString(c.props, "check", []);
        if ok && check != "" then Some(base.(statement := check)) else None
      else if t == ConstraintForeignKey then
        var withActions := base.(onDelete := GetString(c.props, "ondelete", []).0,
                                 onUpdate := GetString(c.props, "onupdate", []).0);
        var (fk, ok) := GetString(c.props, "fk", []);
        if ok && fk != "" then Some(withActions.(statement := fk))
        else
          var (fk2, ok2) := GetString(c.props, "foreignkey", []);
          if ok2 && fk2 != "" then Some(withActions.(statement := fk2)) else None
      else Some(base)
  }

  /** The constraints of a sequence of arguments, in argument order. */
  function CollectConstraints(t: uint8, fields: seq<FieldArg>): (r: seq<Constraint>)
    ensures |r| <= |fields|
    ensures forall k :: 0 <= k < |r| ==> r[k].kind == t
  {
    if fields == [] then []
    else CollectConstraints(t, fields[..|fields| - 1]) + ToSeq(ConstraintFor(t, fields[|fields| - 1]))
  }

  /** What makeConstraints returns. */
  function Constraints(t: uint8, fields: seq<FieldArg>): seq<Constraint>
  {
    if !ValidConstraintKind(t) then [] else CollectConstraints(t, fields)
  }

  method MakeConstraints(t: uint8, fields: seq<FieldArg>) returns (constraints: seq<Constraint>)
    ensures constraints == Constraints(t, fields)
  {
    constraints := [];
    if t <= ConstraintNone || t >= ConstraintInvalid {
      return;
    }
    var i := 0;
    while i < |fields|
      invariant 0 <= i <= |fields|
      invariant constraints == CollectConstraints(t, fields[..i])
    {
      var field := fields[i];
      assert fields[..i + 1][..i] == fields[..i];
      i := i + 1;
      if field.NilArg? {
        continue;
      }
      var constraint := Constraint(t, [], "", "", "");
      if field.ColumnArg? {
        var fc := field.c;
        constraint := constraint.(columns := [fc]);
        if t == ConstraintExclude {
          var exclude, ok := GetString(fc.props, "exclude", []).0, GetString(fc.props, "exclude", []).1;
          if ok && exclude != "" {
            constraint := constraint.(statement := exclude);
          }
        } else if t == ConstraintCheck {
          var check, ok := GetString(fc.props, "check", []).0, GetString(fc.props, "check", []).1;
          if ok && check != "" {
            constraint := constraint.(statement := check);
          } else {
            continue;
          }
        } else if t == ConstraintForeignKey {
          constraint := constraint.(onDelete := GetString(fc.props, "ondelete", []).0);
          constraint := constraint.(onUpdate := GetString(fc.props, "onupdate", []).0);
          var fk, ok := GetString(fc.props, "fk", []).0, GetString(fc.props, "fk", []).1;
          var fk2, ok2 := GetString(fc.props, "foreignkey", []).0, GetString(fc.props, "foreignkey", []).1;
          if ok && fk != "" {
            constraint := constraint.(statement := fk);
          } else if ok2 && fk2 != "" {
            constraint := constraint.(statement := fk2);
          } else {
            continue;
          }
        }
      } else if field.ColumnListArg? {
        constraint := constraint.(columns := field.cs);
      } else {
        continue;
      }
      constraints := constraints + [constraint];
    }
    assert fields[..i] == fields;
  }

  /** Arguments are handled one at a time, independently and in order. */
  lemma {:induction false} CollectConstraintsAppend(t: uint8, a: seq<FieldArg>, b: seq<FieldArg>)
    ensures CollectConstraints(t, a + b) == CollectConstraints(t, a) + CollectConstraints(t, b)
    decreases |b|
  {
    if b == [] {
      assert a + b == a;
    } else {
      var b' := b[..|b| - 1];
      assert (a + b)[..|a + b| - 1] == a + b';
      CollectConstraintsAppend(t, a, b');
    }
  }

  /** An out-of-range kind yields no constraints at all (constraint.go:33-35). */
  lemma ConstraintsOutOfRange(t: uint8, fields: seq<FieldArg>)
    requires t <= ConstraintNone || t >= ConstraintInvalid
    ensures Constraints(t, fields) == []
  {
  }

  /** For a valid kind, the constraints are those of each argument in turn,
      at most one each and all of that kind (constraint.go:36-71). */
  lemma ConstraintsPerArgument(t: uint8, fields: seq<FieldArg>, f: FieldArg)
    requires ValidConstraintKind(t)
    ensures Constraints(t, fields + [f]) == Constraints(t, fields) + ToSeq(ConstraintFor(t, f))
    ensures forall k :: 0 <= k < |Constraints(t, fields)| ==> Constraints(t, fields)[k].kind == t
  {
    assert (fields + [f])[..|fields|] == fields;
  }

  // ---- makeIndexes and Index.String (index.go:14-61) ----

  predicate ValidIndexKind(t: uint8) { IndexNone < t < IndexInvalid }

  /** index.go:21-37: every kind prints as the empty string. */
  function IndexString(i: Index): (s: string)
    ensures s == ""
  {
    if i.kind == IndexBTree || i.kind == IndexHash || i.kind == IndexGist
       || i.kind == IndexSpGist || i.kind == IndexGin || i.kind == IndexBrin then ""
    else ""
  }

  /** The index one argument yields, if any (index.go:46-57). Index names are
      not set by this builder. */
  function IndexFor(t: uint8, f: FieldArg): (r: Option<Index>)
    ensures r.Some? ==> r.value.kind == t && r.value.name == ""
    ensures r.Some? <==> (f.ColumnArg? || f.ColumnListArg?)
    ensures f.ColumnArg? ==> r.value.columns == [f.c]
    ensures f.ColumnListArg? ==> r.value.columns == f.cs
  {
    match f
    case ColumnArg(c) => Some(Index(t, "", [c]))
    case ColumnListArg(cs) => Some(Index(t, "", cs))
    case _ => None
  }

  function CollectIndexes(t: uint8, fields: seq<FieldArg>): (r: seq<Index>)
    ensures |r| <= |fields|
    ensures forall k :: 0 <= k < |r| ==> r[k].kind == t
  {
    if fields == [] then []
    else CollectIndexes(t, fields[..|fields| - 1]) + ToSeq(IndexFor(t, fields[|fields| - 1]))
  }

  /** What makeIndexes returns. */
  function Indexes(t: uint8, fields: seq<FieldArg>): seq<Index>
  {
    if !ValidIndexKind(t) then [] else CollectIndexes(t, fields)
  }

  method MakeIndexes(t: uint8, fields: seq<FieldArg>) returns (indexes: seq<Index>)
    ensures indexes == Indexes(t, fields)
  {
    indexes := [];
    if t >= IndexInvalid || t <= IndexNone {
      return;
    }
    var i := 0;
    while i < |fields|
      invariant 0 <= i <= |fields|
      invariant indexes == CollectIndexes(t, fields[..i])
    {
      var f := fields[i];
      assert fields[..i + 1][..i] == fields[..i];
      i := i + 1;
      if f.NilArg? {
        continue;
      }
      var idx := Index(t, "", []);
      if f.ColumnArg? {
        idx := idx.(columns := [f.c]);
      } else if f.ColumnListArg? {
        idx := idx.(columns := f.cs);
      } else {
        continue;
      }
      indexes := indexes + [idx];
    }
    assert fields[..i] == fields;
  }

  /** Every column and column-list argument yields exactly one index, so the
      count of indexes is the count of such arguments (index.go:45-57). */
  function CountColumnArgs(fields: seq<FieldArg>): nat
  {
    if fields == [] then 0
    else
      var last := fields[|fields| - 1];
      CountColumnArgs(fields[..|fields| - 1]) + (if last.ColumnArg? || last.ColumnListArg? then 1 else 0)
  }

  lemma {:induction false} IndexesCount(t: uint8, fields: seq<FieldArg>)
    requires ValidIndexKind(t)
    ensures |Indexes(t, fields)| == CountColumnArgs(fields)
  {
    if fields != [] {
      IndexesCount(t, fields[..|fields| - 1]);
    }
  }

  lemma {:induction false} CollectIndexesAppend(t: uint8, a: seq<FieldArg>, b: seq<FieldArg>)
    ensures CollectIndexes(t, a + b) == CollectIndexes(t, a) + CollectIndexes(t, b)
    decreases |b|
  {
    if b == [] {
      assert a + b == a;
    } else {
      var b' := b[..|b| - 1];
      assert (a + b)[..|a + b| - 1] == a + b';
      CollectIndexesAppend(t, a, b');
    }
  }

  lemma IndexesOutOfRange(t: uint8, fields: seq<FieldArg>)
    requires t <= IndexNone || t >= IndexInvalid
    ensures Indexes(t, fields) == []
  {
  }
}
