/** Sessions, engines and the dialect registry (session.go, dialect.go,
    xql.go). The database handle and the transaction object are abstract:
    a session only records whether a transaction is open, and what the
    database answers to begin, commit and rollback is passed in. */
module Sessions {
  import opened Wrappers
  import opened Strings
  import opened SchemaTypes
  import opened Tables
  import opened QueryTypes
  import opened Query

  /** An opaque handle for a registered SQL dialect. */
  datatype Dialect = Dialect(id: string)

  /** An opaque handle for a `*sql.DB`. */
  datatype Db = Db(id: nat)

  // ---- the dialect registry (dialect.go:17-25) ----

  /** The process-wide map from driver name to dialect. */
  class DialectRegistry {
    var dialects: map<string, Dialect>

    /** The registry starts empty (dialect.go:19-21). */
    constructor()
      ensures dialects == map[]
    {
      dialects := map[];
    }

    /** Registering a name maps it to `d`, replacing an earlier entry for
        the same name and leaving every other name as it was. */
    method RegisterDialect(name: string, d: Dialect)
      modifies this
      ensures dialects == old(dialects)[name := d]
      ensures name in dialects && dialects[name] == d
      ensures forall k :: k != name ==> (k in dialects <==> k in old(dialects))
      ensures forall k :: k != name && k in dialects ==> dialects[k] == old(dialects)[k]
    {
      dialects := dialects[name := d];
    }
  }

  // ---- the transaction flag (session.go:67-72, 101-130) ----

  datatype TxOp = Begin | Commit | Rollback | Close

  const AlreadyInTx := "Already in Tx!"
  const NoOpenTx := "not open Tx!"

  /** What one operation does to the open-transaction flag, and the error it
      returns; `db` is what the database answers when it is asked. */
  function TxStep(open: bool, op: TxOp, db: Option<string>): (bool, Option<string>)
  {
    match op
    case Begin => if open then (true, Some(AlreadyInTx)) else (db.None?, db)
    case Commit => if !open then (false, Some(NoOpenTx)) else (db.Some?, db)
    case Rollback => if !open then (false, Some(NoOpenTx)) else (false, db)
    case Close => (open, None)
  }

  /** Begin opens a transaction exactly when none was open and the database
      agreed; otherwise the flag is unchanged. */
  lemma BeginOpens(open: bool, db: Option<string>)
    ensures TxStep(open, Begin, db).0 <==> open || db.None?
    ensures TxStep(open, Begin, db).1.None? <==> !open && db.None?
    ensures open ==> TxStep(open, Begin, db).1 == Some(AlreadyInTx)
  {
  }

  /** Commit closes the transaction only when it succeeds; Rollback always
      leaves it closed; both fail without a transaction. */
  lemma CommitAndRollbackClose(open: bool, db: Option<string>)
    ensures !open ==> TxStep(open, Commit, db) == (false, Some(NoOpenTx)) && TxStep(open, Rollback, db) == (false, Some(NoOpenTx))
    ensures open ==> (TxStep(open, Commit, db).0 <==> TxStep(open, Commit, db).1.Some?)
    ensures !TxStep(open, Rollback, db).0
  {
  }

  /** Closing a session neither fails nor changes the flag, whatever the
      database answers to the rollback. */
  lemma CloseKeepsTransaction(open: bool, db: Option<string>)
    ensures TxStep(open, Close, db) == (open, None)
  {
  }

  /** The flag after a run of operations and the errors they returned. */
  function TxRun(open: bool, ops: seq<TxOp>, answers: seq<Option<string>>): (r: (bool, seq<Option<string>>))
    requires |answers| == |ops|
    ensures |r.1| == |ops|
  {
    if ops == [] then (open, [])
    else
      var prev := TxRun(open, ops[..|ops| - 1], answers[..|ops| - 1]);
      var step := TxStep(prev.0, ops[|ops| - 1], answers[|ops| - 1]);
      (step.0, prev.1 + [step.1])
  }

  /** With a database that always agrees, a run that reports no error
      alternates: every Begin finds no transaction open and every Commit or
      Rollback finds one, so the flag says whether the last of them was a
      Begin. */
  lemma {:induction false} CleanRunAlternates(ops: seq<TxOp>)
    ensures var ok := seq(|ops|, k requires 0 <= k < |ops| => None);
      var r := TxRun(false, ops, ok);
      (forall k :: 0 <= k < |ops| ==> r.1[k].None?) ==> r.0 == LastOpenedBy(ops)
  {
    var ok := seq(|ops|, k requires 0 <= k < |ops| => None);
    if ops != [] {
      var init := ops[..|ops| - 1];
      assert ok[..|ops| - 1] == seq(|init|, k requires 0 <= k < |init| => None);
      CleanRunAlternates(init);
      var prev := TxRun(false, init, ok[..|ops| - 1]);
      var r := TxRun(false, ops, ok);
      if forall k :: 0 <= k < |ops| ==> r.1[k].None? {
        assert r.1 == prev.1 + [TxStep(prev.0, ops[|ops| - 1], None).1];
        forall k | 0 <= k < |init|
          ensures prev.1[k].None?
        {
          assert r.1[k] == prev.1[k];
        }
        assert ok[|ops| - 1] == None;
        assert r.1[|init|] == TxStep(prev.0, ops[|ops| - 1], None).1;
      }
    }
  }

  /** Whether the last Begin, Commit or Rollback of `ops` is a Begin. */
  function LastOpenedBy(ops: seq<TxOp>): bool
  {
    if ops == [] then false
    else
      var op := ops[|ops| - 1];
      if op == Begin then true
      else if op == Close then LastOpenedBy(ops[..|ops| - 1])
      else false
  }

  // ---- the session (session.go:10-29, xql.go:8-14, dialect.go:48-53) ----

  class Session {
    const driverName: string
    const db: Db
    var dialect: Option<Dialect>
    var txOpen: bool
    var verbose: bool

    /** xql.go:8-14: the verbose flag is the first optional argument, false
        when none is given; no transaction is open and no dialect cached. */
    constructor Make(db: Db, driverName: string, verbose: seq<bool>)
      ensures this.db == db && this.driverName == driverName
      ensures this.verbose == (|verbose| > 0 && verbose[0])
      ensures dialect == None && !txOpen
    {
      this.db := db;
      this.driverName := driverName;
      this.verbose := |verbose| > 0 && verbose[0];
      dialect := None;
      txOpen := false;
    }

    /** The cached dialect, or else the registered one, which is then cached;
        an unregistered driver name panics. */
    method GetDialect(reg: DialectRegistry) returns (r: Result<Dialect>)
      modifies this
      ensures old(dialect).Some? ==> r == Ok(old(dialect).value) && dialect == old(dialect)
      ensures old(dialect).None? && driverName in reg.dialects ==>
        r == Ok(reg.dialects[driverName]) && dialect == Some(reg.dialects[driverName])
      ensures old(dialect).None? && driverName !in reg.dialects ==>
        r == Panic("Dialect '" + driverName + "' not registered! ") && dialect == None
      ensures txOpen == old(txOpen) && verbose == old(verbose)
    {
      if dialect.Some? {
        return Ok(dialect.value);
      }
      if driverName in reg.dialects {
        var s := reg.dialects[driverName];
        dialect := Some(s);
        return Ok(s);
      } else {
        return Panic("Dialect '" + driverName + "' not registered! ");
      }
    }

    /** session.go:101-110. */
    method BeginTx(db: Option<string>) returns (err: Option<string>)
      modifies this
      ensures (txOpen, err) == TxStep(old(txOpen), Begin, db)
      ensures dialect == old(dialect) && verbose == old(verbose)
    {
      if txOpen {
        return Some(AlreadyInTx);
      }
      err := db;
      if err.None? {
        txOpen := true;
      }
    }

    /** session.go:112-121. */
    method CommitTx(db: Option<string>) returns (err: Option<string>)
      modifies this
      ensures (txOpen, err) == TxStep(old(txOpen), Commit, db)
      ensures dialect == old(dialect) && verbose == old(verbose)
    {
      if !txOpen {
        return Some(NoOpenTx);
      }
      err := db;
      if err.None? {
        txOpen := false;
      }
    }

    /** session.go:123-130. */
    method RollbackTx(db: Option<string>) returns (err: Option<string>)
      modifies this
      ensures (txOpen, err) == TxStep(old(txOpen), Rollback, db)
      ensures dialect == old(dialect) && verbose == old(verbose)
    {
      if !txOpen {
        return Some(NoOpenTx);
      }
      err := db;
      txOpen := false;
    }

    /** session.go:67-72: an open transaction is rolled back, but the session
        still holds it. `rolledBack` says whether a rollback was sent. */
    method CloseSession() returns (rolledBack: bool)
      ensures rolledBack == txOpen
    {
      rolledBack := txOpen;
    }
  }

  /** dialect.go:27-30, 40-46. */
  datatype Engine = Engine(db: Db, driverName: string)
  {
    function DriverName(): string
    {
      driverName
    }

    /** dialect.go:48-53: the session shares the engine's handle and driver
        name and starts with no transaction and no cached dialect. */
    method MakeSession() returns (s: Session)
      ensures fresh(s)
      ensures s.db == db && s.driverName == driverName && !s.verbose
      ensures s.dialect == None && !s.txOpen
    {
      s := new Session.Make(db, driverName, []);
    }
  }

  /** dialect.go:32-38: the result of opening the database is a parameter. */
  function CreateEngine(name: string, openResult: Result<Db>): (r: Result<Engine>)
    requires !openResult.Panic?
  {
    if openResult.Error? then Error(openResult.msg) else Ok(Engine(openResult.value, name))
  }

  /** An engine reports the driver name it was created with; opening errors
      pass through unchanged. */
  lemma EngineKeepsName(name: string, openResult: Result<Db>)
    requires !openResult.Panic?
    ensures CreateEngine(name, openResult).Ok? <==> openResult.Ok?
    ensures openResult.Ok? ==> CreateEngine(name, openResult).value.DriverName() == name
    ensures openResult.Error? ==> CreateEngine(name, openResult) == Error(openResult.msg)
  {
  }

  // ---- Session.Table (session.go:74-99) ----

  /** An argument of Table: a prepared column, a name, or anything else. */
  datatype ColumnArg = ArgColumn(qc: QueryColumn) | ArgName(name: string) | ArgOther

  /** The query column for the `i`th argument. */
  function ColumnFor(t: Table, arg: ColumnArg, i: nat): Result<QueryColumn>
    reads t
  {
    match arg
    case ArgColumn(qc) => Ok(qc)
    case ArgName(n) =>
      var col := t.GetColumn(n);
      if col.None? then Ok(QueryColumn(n, "", "aa" + NatToString(i)))
      else Ok(QueryColumn(col.value.info.fieldName, "", col.value.info.fieldName))
    case ArgOther => Panic("Unsupported parameter type!")
  }

  function TableColumns(t: Table, args: seq<ColumnArg>): (r: Result<seq<QueryColumn>>)
    reads t
    ensures !r.Error?
  {
    if args == [] then Ok([])
    else
      var prev := TableColumns(t, args[..|args| - 1]);
      if !prev.Ok? then prev
      else
        var c := ColumnFor(t, args[|args| - 1], |args| - 1);
        if c.Ok? then Ok(prev.value + [c.value]) else Panic(c.msg)
  }

  /** Table panics exactly when some argument is neither a column nor a
      name; otherwise it yields one query column per argument, in order:
      a prepared column as given, a known name as its storage name aliased
      to itself, an unknown name kept with the alias `aa<position>`. */
  lemma {:induction false} TableColumnsMeaning(t: Table, args: seq<ColumnArg>)
    ensures TableColumns(t, args).Ok? <==> forall k :: 0 <= k < |args| ==> !args[k].ArgOther?
    ensures TableColumns(t, args).Ok? ==>
      |TableColumns(t, args).value| == |args| &&
      forall k :: 0 <= k < |args| ==> ColumnFor(t, args[k], k) == Ok(TableColumns(t, args).value[k])
  {
    if args != [] {
      var init := args[..|args| - 1];
      TableColumnsMeaning(t, init);
      assert forall k :: 0 <= k < |init| ==> init[k] == args[k];
      var prev := TableColumns(t, init);
      if prev.Ok? {
        var c := ColumnFor(t, args[|args| - 1], |args| - 1);
        if c.Ok? {
          assert TableColumns(t, args).value == prev.value + [c.value];
        }
      }
    }
  }

  /** The query set Table starts: the columns from the arguments, no
      filters or orders, no lock, and offset and limit -1. */
  function TableQuery(t: Table, args: seq<ColumnArg>): Result<QuerySet>
    reads t
  {
    var cols := TableColumns(t, args);
    if cols.Ok? then Ok(QuerySet(t, cols.value, [], [], "", -1, -1)) else Panic(cols.msg)
  }

  /** session.go:74-99. */
  method SessionTable(t: Table, args: seq<ColumnArg>) returns (r: Result<QuerySet>)
    ensures r == TableQuery(t, args)
  {
    var queries: seq<QueryColumn> := [];
    var i := 0;
    while i < |args|
      invariant 0 <= i <= |args|
      invariant TableColumns(t, args[..i]) == Ok(queries)
    {
      assert args[..i + 1][..i] == args[..i];
      match args[i] {
        case ArgColumn(qc) =>
          queries := queries + [qc];
        case ArgName(qcn) =>
          var col := t.GetColumn(qcn);
          if col.None? {
            queries := queries + [QueryColumn(qcn, "", "aa" + NatToString(i))];
          } else {
            queries := queries + [QueryColumn(col.value.info.fieldName, "", col.value.info.fieldName)];
          }
        case ArgOther =>
          TableColumnsPanicFrom(t, args, i, |args|);
          assert args[..|args|] == args;
          return Panic("Unsupported parameter type!");
      }
      i := i + 1;
    }
    assert args[..i] == args;
    r := Ok(QuerySet(t, queries, [], [], "", -1, -1));
  }

  lemma {:induction false} TableColumnsPanicFrom(t: Table, args: seq<ColumnArg>, i: nat, m: nat)
    requires i < m <= |args| && TableColumns(t, args[..i]).Ok? && args[i].ArgOther?
    ensures TableColumns(t, args[..m]) == Panic("Unsupported parameter type!")
    decreases m
  {
    var pre := args[..m];
    assert pre[..m - 1] == args[..m - 1];
    if m - 1 > i {
      TableColumnsPanicFrom(t, args, i, m - 1);
    } else {
      assert pre[m - 1] == args[i];
    }
  }
}
