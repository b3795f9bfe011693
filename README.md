# go.xql in Dafny

This project models the core of go.xql, a small Go object–relational
mapper for PostgreSQL, and proves properties of the model. The modelled
parts are:

- the struct-tag annotation parser and its typed accessors (`tags.go`);
- the name and skip helpers (`misc.go`);
- the constraint and index builders (`constraint.go`, `index.go`);
- table assembly and lookup (`xql.go` `DeclareTable`, `table.go`);
- the query builder (`query.go`, `query-types.go`) and the session's
  `Table`, transaction flags and dialect cache (`session.go`,
  `dialect.go`);
- the two Postgres SQL compilers: `dialects/postgres/postgres.go` and the
  older `driver/postgres/postgres.go`;
- the column type declarations (`field.go` and the `Declare` methods of
  the Postgres dialect);
- the hstore codec, the array-literal splitter and the UUID null mapping
  (`dialects/postgres/hstore.go`, `array.go`, `uuid.go` and their copies
  in `field-types.go`).

One datatype set serves every file, although the Go files come from
different versions of the library. Constraint and index kinds use the
numbering of `constraint.go` and `index.go`. `Index` carries the `name`
that the Postgres dialect reads. Table fields follow `table.go`.

Code that works step by step is modelled as imperative Dafny:

- `ParseDottedArgs`, `ParseProperties`, `getSkips`, `inSlice`,
  `makeConstraints`, `makeIndexes`, the `DeclareTable` index loop, the
  compilers, `parseArray` and the hstore `Scan` and `Value` are methods
  with loops;
- each of those methods is proved equal to a specification function, and
  the properties are proved as lemmas about that function;
- objects whose fields change in place are classes: `Table.SetSchema`,
  `Session`, the dialect registry, `PropertySet`'s `Pop*` and the `Scan`
  targets.

How the model handles Go constructs:

- a Go `panic` is the `Panic` case of a `Result`, and an `error` return
  is its `Error` case;
- where the source iterates over a Go map, the order of the keys is a
  parameter (a sequence that lists each key once), and properties hold
  for every order;
- reflection over records becomes a map from field names to abstract
  values;
- strings are sequences of characters, one per byte.

Where the code and its documentation disagree, the model follows the code:

- `GetInt64` parses only 32-bit numbers, as `GetInt` does.
- `Numeric` has no `Declare` method of its own.
- The hstore `Scan` stores a lone comma as an empty pair.
- The older `Update` writes no comma between SET items (see Findings).

## Model

| member | source | states |
|---|---|---|
| Strings.IndexOf | tags.go:65-83 | the index found holds the character and no earlier position does |
| Strings.IndexOfUnique | tags.go:65-83 | the first occurrence is the only index with that property |
| Strings.JoinSplit | misc.go:37-46 | joining the pieces of a split with the separator gives back the text |
| Strings.SplitPiecesLackSep | misc.go:37-46 | no piece of a split contains the separator |
| Strings.SplitAround | misc.go:37-46 | splitting around a separator splits each side independently |
| Strings.NatToString | dialects/postgres/postgres.go:251-271 | the decimal text of a number is non-empty and all digits |
| Strings.DigitsValueOfNat | dialects/postgres/postgres.go:251-271 | reading back the decimal text of a number gives the number |
| Strings.ToLower | tags.go:197-214 | lower-casing keeps the length and lowers each ASCII letter at its own position |
| Strings.TrimLeftSet | misc.go:39 | cutset trimming removes exactly the longest prefix drawn from the cutset |
| Strings.TrimLeftSetExact | misc.go:39 | trimming a text whose first n characters are in the cutset, and whose next is not, drops exactly n |
| Strings.TrimRightSet | dialects/postgres/array.go:321 | right trimming removes exactly the longest suffix drawn from the cutset |
| Assoc.FromPairsKeys | xql.go:26-34 | a key is in the map built from pairs iff some pair has that key |
| Assoc.FromPairsLastWins | tags.go:65-83 | the last pair with a key gives its value |
| Tags.ParseDottedArgs | tags.go:18-63 | the tokens the loop emits equal the scan specification |
| Tags.ScanTokensGood | tags.go:22-61 | no token is empty or holds a comma, and the pending characters hold no comma |
| Tags.DottedArgsTokensGood | tags.go:18-63 | every token is non-empty and comma-free |
| Tags.DottedArgsPlain | tags.go:18-63 | without quotes or braces the tokens are the non-empty comma-separated pieces |
| Tags.SingleWord | tags.go:65-83 | a lone key with no comma, `=`, quote or brace parses to that key mapped to "t" |
| Tags.BracesDoNotNest | tags.go:29-46 | braces set and clear one flag, so `((a),b)` splits after the inner `)` |
| Tags.QuotedCommaDiscards | tags.go:47-51 | a comma inside quotes throws away the characters collected so far |
| Tags.NonEmpty | tags.go:48-61 | no kept token is empty |
| Tags.NonEmptyCounts | tags.go:48-61 | the kept tokens are exactly the non-empty ones, each as often as it occurs |
| Tags.NonEmptySnoc | tags.go:48-61 | one more piece is appended at the end exactly when it is non-empty, so the kept tokens keep their order |
| Tags.KeyValue | tags.go:70-79 | the key is the text before the first `=`, the value the rest; a bare key gets "t" |
| Tags.ParseProperties | tags.go:65-83 | the loop builds the map of the tokens' key/value pairs and never reports an error |
| Tags.PropertiesMeaning | tags.go:65-83 | each token's key maps to the value of its last occurrence |
| Tags.PropertiesKeys | tags.go:65-83 | the keys are exactly the tokens' keys |
| Tags.BareKeyIsTrue | tags.go:76-78 | `pk` alone gives `pk = t` |
| Tags.ParseInt32 | tags.go:93-110 | a parsed value lies in the signed 32-bit range |
| Tags.ParseUint32 | tags.go:149-163 | a parsed value lies in the unsigned 32-bit range |
| Tags.ParseInt32OfPrinted | tags.go:93-110 | the decimal text of any 32-bit integer parses back to it |
| Tags.ParseUint32OfPrinted | tags.go:149-163 | the decimal text of any unsigned 32-bit integer parses back to it |
| Tags.UintIsInt | tags.go:93-163 | on a digit string below 2^31 the signed and unsigned parsers agree |
| Tags.GetInt | tags.go:93-110 | (value, true) iff the key is present and parses as a 32-bit integer, else (first default or 0, false) |
| Tags.GetInt64 | tags.go:121-138 | as GetInt: the value is also limited to 32 bits |
| Tags.GetUInt | tags.go:149-163 | (value, true) iff the key parses as an unsigned 32-bit integer, else the default |
| Tags.GetString | tags.go:174-186 | (value, true) iff the key is present, else (first default or "", false) |
| Tags.GetBool | tags.go:197-214 | true words give (true, true), false words (false, true), case-insensitively; anything else the default |
| Tags.TrueAndFalseWordsDisjoint | tags.go:201-211 | no word is both a true word and a false word |
| Tags.PropertyBag.PopInt | tags.go:112-119 | returns GetInt's answer and deletes the key only when it succeeded; no other key changes |
| Tags.PropertyBag.PopInt64 | tags.go:140-147 | returns GetInt64's answer and deletes the key only on success |
| Tags.PropertyBag.PopUInt | tags.go:165-172 | returns GetUInt's answer and deletes the key only on success |
| Tags.PropertyBag.PopString | tags.go:188-195 | returns GetString's answer and deletes the key only on success |
| Tags.PropertyBag.PopBool | tags.go:216-223 | returns GetBool's answer and deletes the key only on success |
| Misc.LowerRun | misc.go:8 | the run of non-upper-case letters is maximal |
| Misc.UpperRun | misc.go:8 | the run of upper-case letters is maximal |
| Misc.Search | misc.go:10-17 | the leftmost position where the pattern matches, which always exists |
| Misc.Camel2Underscore | misc.go:10-21 | the output holds no upper-case letter |
| Misc.WordsOfCamel | misc.go:10-17 | the matches of a text made of capitalised words are those words |
| Misc.Camel2UnderscoreOfWords | misc.go:10-21 | capitalised words run together come out joined by `_` and lower-cased |
| Misc.FullNameExample | misc.go:10-21 | `FullName` becomes `full_name` |
| Misc.Camel2UnderscoreLower | misc.go:10-21 | a text of lower-case letters comes out unchanged |
| Misc.InSlice | misc.go:24-31 | true iff the slice holds the string |
| Misc.SkipNames | misc.go:39-46 | the names of a skips tag are non-empty and hold no `;` |
| Misc.GetSkips | misc.go:33-49 | the loop returns the skip names of the first `skips:` tag |
| Misc.SkipNamesOf | misc.go:39-45 | the names read from one `skips:` tag are its non-empty `;`-separated pieces after the cutset trim, in order |
| Misc.SkipsAt | misc.go:37-47 | the first tag starting with `skips:` decides the result |
| Misc.SkipsFirstTagWins | misc.go:37-47 | of two skips tags only the first is used |
| Misc.SkipsWithoutTag | misc.go:34-48 | no skips tag gives no names |
| Misc.SkipsCutsetEatsName | misc.go:39 | cutset trimming cuts `s` off `secret`: `skips:secret;pid` gives `ecret`, `pid` |
| SchemaTypes.ToSeq | constraint.go:36-70 | an option becomes a list of at most one element |
| SchemaTypes.ConstraintFor | constraint.go:37-70 | the constraint one argument yields, per kind and argument shape, all of kind t |
| SchemaTypes.CollectConstraints | constraint.go:36-71 | at most one constraint per argument, each of kind t |
| SchemaTypes.MakeConstraints | constraint.go:31-73 | the loop returns the specified constraint list |
| SchemaTypes.CollectConstraintsAppend | constraint.go:36-71 | the constraints of two argument lists are the two results in order |
| SchemaTypes.ConstraintsOutOfRange | constraint.go:33-35 | an out-of-range kind yields nothing |
| SchemaTypes.ConstraintsPerArgument | constraint.go:36-71 | one more argument adds exactly its own constraint, if any |
| SchemaTypes.IndexString | index.go:21-37 | every kind gives the empty string |
| SchemaTypes.IndexFor | index.go:45-57 | only a column or a column list yields an index, of kind t, with those columns |
| SchemaTypes.CollectIndexes | index.go:45-57 | at most one index per argument, each of kind t |
| SchemaTypes.MakeIndexes | index.go:40-61 | the loop returns the specified index list |
| SchemaTypes.IndexesCount | index.go:45-57 | one index per column or column-list argument |
| SchemaTypes.CollectIndexesAppend | index.go:45-57 | the indexes of two argument lists are the two results in order |
| SchemaTypes.IndexesOutOfRange | index.go:42-44 | an out-of-range kind yields nothing |
| Tables.Keyed | xql.go:26-34 | each column paired with its key |
| Tables.PrimaryKeysOf | xql.go:43-47 | only primary-key columns, no more than there are columns |
| Tables.PrimaryKeysExact | xql.go:43-47 | the primary keys are exactly the flagged columns, with their multiplicity |
| Tables.Table.Declare | xql.go:18-60 | the schema is the first optional argument or ""; the lookup maps are built; composite constraints and indexes only when the entity provides them |
| Tables.IndexStep | xql.go:26-34 | one loop step extends the three lookup maps by one column |
| Tables.LookupMapSnoc | xql.go:26-34 | a later column with the same key overwrites the earlier one |
| Tables.LookupMapMeaning | xql.go:26-34 | every column is reachable by its key unless a later one shares it |
| Tables.LookupMapValues | xql.go:26-34 | every entry is a column of the table under its own key |
| Tables.Table.TableName | table.go:85-90 | `schema.base` when the schema is set, else the base name |
| Tables.Table.GetPrimaryKeys | table.go:108-110 | on a declared table: exactly the columns flagged as primary key, each as often as the column list holds it, in column order |
| Tables.Table.SetSchema | table.go:112-114 | only the schema changes |
| Tables.Table.GetColumn | table.go:120-131 | found iff some map has the name, searching mColumns, then xColumns, then jColumns |
| Tables.GetColumnFinds | table.go:120-131 | a found column is a column of the table |
| Tables.GetColumnOfEveryColumn | table.go:120-131 | every column can be found by each of its keys |
| Query.IsPureField | query.go:13-15 | true iff a letter is followed only by letters, digits and `_` |
| Query.ColumnExpr | query.go:17-26 | `F("name")` with a function, `"name"` for a pure field, else the raw text |
| Query.ColumnString | query.go:17-30 | ` AS alias` follows only with a non-empty alias and a true first flag |
| Query.MakeQueryOrder | query.go:114-124 | a leading `-` gives DESC on the rest, else ASC on the whole; an empty text panics |
| Query.MakeQueryOrderOfText | query.go:114-124 | parsing an order's text gives the order back |
| Query.MakeFilter | query.go:126-171 | operator `ops[0]` or `=`, function `ops[1]` or "", the given condition, not reversed |
| Query.WhereFilter | query.go:126-135 | the free Where builds an AND filter |
| Query.QuerySet.Where | query.go:137-147 | appends one AND filter; nothing else changes |
| Query.QuerySet.And | query.go:149-159 | the same as Where |
| Query.QuerySet.Or | query.go:161-171 | appends one OR filter; nothing else changes |
| Query.QuerySet.LockFor | query.go:173-176 | only the lock changes |
| Query.QuerySet.Offset | query.go:220-223 | only the offset changes |
| Query.QuerySet.Limit | query.go:225-228 | only the limit changes |
| Query.FiltersOf | query.go:180-195 | text becomes a raw filter, each map entry an `=` filter, a filter stays as is |
| Query.FiltersOfAllPanics | query.go:178-201 | Filter panics iff some argument has another type |
| Query.QuerySet.Filter | query.go:178-201 | the filters of the arguments are appended in order, or it panics |
| Query.OrdersOfAll | query.go:203-218 | one order per argument, each the one its argument gives |
| Query.OrdersFailFrom | query.go:203-218 | an argument that panics makes OrderBy panic |
| Query.QuerySet.OrderBy | query.go:203-218 | the orders of the arguments are appended in order, or it panics |
| Query.QuerySet.Count | query.go:230-241 | counts `cols[0]`, else the first key, else the first column, with no orders and no paging |
| Query.QuerySet.Projection | query.go:253-257 | the chosen columns when there are any; otherwise one column per key of the element-name map, in map order, aliased to its field name |
| Query.MappedProjection | query.go:254-257 | each selected column has no function and is aliased to its own field name, and there is at most one per visited name |
| Query.MappedProjectionCovers | query.go:254-257 | every mapped column whose name is visited appears in the projection |
| Query.MappedProjectionAllKnown | query.go:254-257 | when every visited name is mapped, item k is the column of name k |
| Query.MappedProjectionExact | query.go:254-257 | when the order lists each map key once, the projection has exactly one column per mapped column, in that order |
| Query.QuerySet.All | query.go:253-260 | the select call carries the query set's filters, orders, lock and paging, and the chosen columns or else every mapped column once |
| Query.QuerySet.One | query.go:272-282 | All with limit 1 |
| Query.KeyFilters | query.go:296-303 | one `=` AND filter per primary key, in key order |
| Query.QuerySet.Get | query.go:289-310 | panics unless there is one value per key; else replaces the filters with the key filters and limit 1 |
| Query.ResolveUpdateKey | query.go:320-334 | a key resolves through xColumns, then mColumns, then jColumns |
| Query.MapUpdates | query.go:320-334 | one update column per entry, when all resolve |
| Query.MapUpdatesMeaning | query.go:320-334 | succeeds iff every key resolves, each entry becoming its column |
| Query.MapUpdatesStopsAt | query.go:320-334 | the first unknown key gives the error `Invalid column:` and the key |
| Query.RecordUpdates | query.go:336-350 | at most one update column per table column |
| Query.RecordUpdatesStopsAt | query.go:336-350 | a field missing from the record panics |
| Query.RecordUpdatesSkipKeys | query.go:336-350 | primary keys and nil pointers are never updated |
| Query.QuerySet.UpdateColumns | query.go:317-350 | the loop gives the specified update columns or error |
| Query.QuerySet.InsertColumns | query.go:414-430 | the field names of the chosen columns |
| Query.InsertPlan | query.go:414-447 | all objects when all have the entity's type; else the ones before the first wrong one and an error |
| Query.InsertPlanAt | query.go:431-437 | the first object of another type stops the loop with `Invalid data type:` |
| Query.InsertPlanAll | query.go:414-447 | objects of the entity's type are all inserted |
| Query.QuerySet.Insert | query.go:414-447 | the loop hands over the planned objects and error |
| Query.QuerySet.InsertWithInsertedId | query.go:383-397 | succeeds iff the object has the entity's type, and then hands over the object, the id column and the insert columns |
| Sessions.DialectRegistry.constructor | dialect.go:19-21 | the registry starts empty |
| Sessions.DialectRegistry.RegisterDialect | dialect.go:23-25 | the name maps to the dialect; other names are unaffected |
| Sessions.BeginOpens | session.go:101-110 | Begin fails when a transaction is open and opens one only when the database agrees |
| Sessions.CommitAndRollbackClose | session.go:112-130 | without a transaction both fail; Commit closes only on success, Rollback always |
| Sessions.TxRun | session.go:101-130 | one answer per operation |
| Sessions.CleanRunAlternates | session.go:101-130 | in a run without errors the flag is set iff the last Begin follows the last close |
| Sessions.Session.Make | xql.go:8-14 | copies db and driver name; verbose is the first optional flag; no transaction, no dialect |
| Sessions.Session.GetDialect | session.go:18-29 | the cached dialect, else the registered one (then cached), else a panic |
| Sessions.Session.BeginTx | session.go:101-110 | the flag and error follow the Begin rule |
| Sessions.Session.CommitTx | session.go:112-121 | the flag and error follow the Commit rule |
| Sessions.Session.RollbackTx | session.go:123-130 | the flag and error follow the Rollback rule |
| Sessions.Session.CloseSession | session.go:67-72 | a rollback is sent exactly when a transaction is open |
| Sessions.CloseKeepsTransaction | session.go:67-72 | closing reports no error and leaves the transaction flag as it was, whatever the database answers |
| Sessions.Engine.MakeSession | dialect.go:48-53 | a fresh session with the engine's db and name, no transaction and no dialect |
| Sessions.EngineKeepsName | dialect.go:32-46 | an engine is made iff the database opens, and reports the name it was made with |
| Sessions.TableColumns | session.go:78-91 | never an error; a column per argument or a panic |
| Sessions.TableColumnsMeaning | session.go:78-91 | known names alias to themselves, unknown ones get `aa<i>`, query columns pass through; any other type panics |
| Sessions.SessionTable | session.go:74-99 | the loop gives the specified query set, with offset and limit -1 |
| PostgresDdl.FieldNames | dialects/postgres/postgres.go:117-118 | the field names of the columns, in order |
| PostgresDdl.InlineForeignKeyLastDot | dialects/postgres/postgres.go:94-101 | an inline foreign key splits its statement at the last `.` |
| PostgresDdl.InlineForeignKeyNoDot | dialects/postgres/postgres.go:94-101 | without a dot the statement is the referenced table |
| PostgresDdl.InlinePieces | dialects/postgres/postgres.go:73-111 | at most one piece per constraint |
| PostgresDdl.InlinePiecesAppend | dialects/postgres/postgres.go:76-108 | the pieces keep the constraints' order |
| PostgresDdl.InlineDropsOnly | dialects/postgres/postgres.go:76-108 | only exclusion and unknown kinds give no inline piece |
| PostgresDdl.MakeInlineConstraint | dialects/postgres/postgres.go:73-111 | the loop gives the specified inline text |
| PostgresDdl.TablePieces | dialects/postgres/postgres.go:113-147 | at most one definition per constraint |
| PostgresDdl.TablePieceNamed | dialects/postgres/postgres.go:113-147 | a definition is named `base_fields_kind`; NOT NULL has none |
| PostgresDdl.TablePiecesAppend | dialects/postgres/postgres.go:116-145 | the definitions keep the constraints' order |
| PostgresDdl.MakeConstraints | dialects/postgres/postgres.go:113-147 | the loop gives the specified definitions |
| PostgresDdl.IndexStatements | dialects/postgres/postgres.go:149-175 | one statement per index, in order |
| PostgresDdl.MakeIndexes | dialects/postgres/postgres.go:149-175 | the loop gives the specified statements |
| PostgresDdl.ColumnIndexesMembers | dialects/postgres/postgres.go:183-188 | the column indexes are exactly the indexes of some column |
| PostgresDdl.Drop | dialects/postgres/postgres.go:179-201 | a nil table is an error; else the specified statements |
| PostgresDdl.DropCovers | dialects/postgres/postgres.go:179-201 | one statement per column index and per table index, then DROP TABLE last; the table indexes are dropped by name; IF EXISTS only when forced |
| PostgresDdl.ColumnDefs | dialects/postgres/postgres.go:209-218 | one definition per column, in order |
| PostgresDdl.Create | dialects/postgres/postgres.go:205-228 | a nil table panics, as reading its name does; otherwise the CREATE TABLE statement followed by one line per index |
| PostgresDdl.CreateColumns | dialects/postgres/postgres.go:211-220 | one definition per column in table order, and the column indexes gathered in the same order |
| PostgresDdl.ColumnText | dialects/postgres/postgres.go:212-218 | a column definition: escaped name and type, then DEFAULT when a default is set, then the inline constraints when there are any |
| PostgresDdl.CreateLayout | dialects/postgres/postgres.go:205-228 | the CREATE TABLE statement comes first, then one line per index |
| PostgresDml.Cause | dialects/postgres/postgres.go:240-250 | the first filter gets WHERE, the others AND or OR from their condition |
| PostgresDml.FilterArgsSnoc | dialects/postgres/postgres.go:251-271 | a filter adds its value iff it takes a placeholder |
| PostgresDml.FiltersArgs | dialects/postgres/postgres.go:251-271 | the arguments are the filter values in order and the counter is their number |
| PostgresDml.FiltersNumbering | dialects/postgres/postgres.go:251-271 | filter k's clause uses the next placeholder after the earlier ones |
| PostgresDml.FiltersPrefix | dialects/postgres/postgres.go:240-271 | each filter only appends to the text |
| PostgresDml.FiltersStartWithWhere | dialects/postgres/postgres.go:240-250 | with filters the text continues with ` WHERE ` |
| PostgresDml.FilterText | dialects/postgres/postgres.go:251-271 | one clause equals its specification |
| PostgresDml.CompileFilters | dialects/postgres/postgres.go:240-271 | the loop gives the specified text, arguments and counter |
| PostgresDml.AppendFilter | dialects/postgres/postgres.go:251-271 | one filter adds its clause, and its value with one more placeholder exactly when it has an operator |
| PostgresDml.OrderPieces | dialects/postgres/postgres.go:273-282 | at most one piece per order |
| PostgresDml.ColumnTexts | dialects/postgres/postgres.go:233-236 | each column's text, in order |
| PostgresDml.SelectHasNoAlias | dialects/postgres/postgres.go:233-236 | the select list renders columns without their aliases |
| PostgresDml.Select | dialects/postgres/postgres.go:232-296 | the loop gives the specified statement and arguments |
| PostgresDml.SelectColumns | dialects/postgres/postgres.go:233-236 | the select list is the text of every query column, in order |
| PostgresDml.SelectOrders | dialects/postgres/postgres.go:273-281 | one `field ASC` or `field DESC` per order of a known direction, in order; other directions are dropped |
| PostgresDml.TailEnds | dialects/postgres/postgres.go:283-294 | the text ends with FOR when locked, else with LIMIT or OFFSET when set |
| PostgresDml.SelectShape | dialects/postgres/postgres.go:232-296 | the arguments are the filter values, counted by the placeholders, and the ending follows the paging and lock rules |
| PostgresDml.SelectWhereFirst | dialects/postgres/postgres.go:240-250 | with filters the statement continues with ` WHERE ` |
| PostgresDml.InsertNames | dialects/postgres/postgres.go:321-324 | the given names, else every column's field name |
| PostgresDml.Placeholders | dialects/postgres/postgres.go:330-345 | `$1` to `$k` in order |
| PostgresDml.InsertItemsExact | dialects/postgres/postgres.go:325-345 | a name is inserted iff it is a known column with a valid non-empty value |
| PostgresDml.InsertParts | dialects/postgres/postgres.go:318-355 | the loop gives the inserted names, placeholders and values |
| PostgresDml.InsertPlaceholders | dialects/postgres/postgres.go:318-355 | as many placeholders as arguments |
| PostgresDml.Insert | dialects/postgres/postgres.go:318-355 | the loop gives the specified statement and arguments |
| PostgresDml.InsertWithInsertedId | dialects/postgres/postgres.go:359-397 | Insert's text followed by ` RETURNING ` and the id column, with the same arguments |
| PostgresDml.MakeSetStr | dialects/postgres/postgres.go:399-406 | an empty operator emits the raw field and leaves arguments and counter alone; else one value and one count more |
| PostgresDml.SetItems | dialects/postgres/postgres.go:418-431 | the counter equals the number of SET arguments |
| PostgresDml.SetItemsArgs | dialects/postgres/postgres.go:418-431 | the SET arguments are the values of the columns with an operator |
| PostgresDml.Update | dialects/postgres/postgres.go:410-466 | panics on no columns; else the specified statement and arguments |
| PostgresDml.UpdateSets | dialects/postgres/postgres.go:416-429 | the SET list has one item per column, numbered from $1, with the values in column order |
| PostgresDml.UpdateArgs | dialects/postgres/postgres.go:410-466 | the SET values come before the filter values, on one counter |
| PostgresDml.Delete | dialects/postgres/postgres.go:470-508 | the loop gives the specified statement and arguments |
| PostgresDml.DeleteShape | dialects/postgres/postgres.go:470-508 | the arguments are the filter values; WHERE follows the table name |
| LegacyPostgres.QualifiedName | driver/postgres/postgres.go:25-28 | `schema.table` when the schema is set, else the table |
| LegacyPostgres.LegacyTableName | driver/postgres/postgres.go:25-28 | the code builds the qualified name |
| LegacyPostgres.LegacyFiltersArgs | driver/postgres/postgres.go:30-52 | the arguments are the filter values and the counter their number |
| LegacyPostgres.LegacyFiltersPrefix | driver/postgres/postgres.go:30-52 | each filter only appends |
| LegacyPostgres.LegacyWhereFirst | driver/postgres/postgres.go:38-40 | with filters the text continues with ` WHERE ` |
| LegacyPostgres.LegacyFilterText | driver/postgres/postgres.go:41-51 | one clause equals its specification |
| LegacyPostgres.LegacyCompileFilters | driver/postgres/postgres.go:30-52 | the loop gives the specified text, arguments and counter |
| LegacyPostgres.LegacyTail | driver/postgres/postgres.go:53-67 | ORDER BY pieces, then OFFSET and LIMIT |
| LegacyPostgres.LegacySelect | driver/postgres/postgres.go:19-69 | the loop gives the specified statement and arguments |
| LegacyPostgres.LegacyPaging | driver/postgres/postgres.go:65-67 | OFFSET and LIMIT appear together, only when both are non-negative |
| LegacyPostgres.LegacyItems | driver/postgres/postgres.go:81-105 | never an error: the kept items, or a panic on a missing field |
| LegacyPostgres.LegacyItemsExact | driver/postgres/postgres.go:81-105 | a name is kept iff it is a known column, and not auto when all columns are used |
| LegacyPostgres.LegacyItemsStopAt | driver/postgres/postgres.go:91-103 | a missing field panics |
| LegacyPostgres.LegacyInsert | driver/postgres/postgres.go:71-110 | the loop gives the specified statement and arguments |
| LegacyPostgres.LegacySetItems | driver/postgres/postgres.go:121-129 | every SET item takes a placeholder and an argument |
| LegacyPostgres.LegacyUpdate | driver/postgres/postgres.go:112-155 | panics on no columns; else the specified statement and arguments |
| LegacyPostgres.LegacyUpdateArgs | driver/postgres/postgres.go:112-155 | the SET values come before the filter values |
| LegacyPostgres.LegacySetHasNoComma | driver/postgres/postgres.go:122-129 | two SET items come out with no comma between them |
| LegacyPostgres.SetItemTexts | driver/postgres/postgres.go:127 | item k is `"field"=$k` |
| LegacyPostgres.CorrectedSetItems | driver/postgres/postgres.go:121-129 | the corrected SET loop: one placeholder and argument per column |
| LegacyPostgres.CorrectedSetJoined | driver/postgres/postgres.go:121-129 | the corrected SET list is the items joined by `, ` |
| LegacyPostgres.CorrectedSetArgs | driver/postgres/postgres.go:121-129 | the SET arguments are the column values in order |
| LegacyPostgres.LegacyDelete | driver/postgres/postgres.go:157-188 | the loop gives the specified statement and arguments |
| LegacyPostgres.LegacyDeleteArgs | driver/postgres/postgres.go:157-188 | the arguments are the filter values; WHERE follows the table name |
| FieldTypes.SizedDeclarations | field.go:83-117 | the character and bit types wrap `size` in their keyword, default 32 or 1 |
| FieldTypes.DeclaredSizeRoundTrip | field.go:83-117 | a size written in decimal comes back in the declaration |
| FieldTypes.FixedIgnoreProps | field.go:15-186 | every other type ignores the properties |
| FieldTypes.EnumIsBoolean | field.go:177-179 | Enum declares "boolean" |
| DriverValues.NullStringScan | dialects/postgres/uuid.go:15-25 | NULL is invalid, text is valid, other types fail |
| DriverValues.UuidNullMapping | dialects/postgres/uuid.go:15-33 | NULL reads as "", and only "" is written as NULL |
| DriverValues.UuidRoundTrip | dialects/postgres/uuid.go:15-33 | scanning what Value writes gives the UUID back |
| DriverValues.UuidCell.Scan | dialects/postgres/uuid.go:15-25 | stores the scanned text, or reports the error and keeps the value |
| DriverValues.JsonDictionaryScan | field-types.go:22-38 | NULL gives the nil map without error; a non-byte source fails |
| PgArrays.RunLen | dialects/postgres/array.go:286-287 | the longest run of unquoted-element characters |
| PgArrays.QuotedLen | dialects/postgres/array.go:290-292 | the closing quote of a quoted element |
| PgArrays.TrimAll | dialects/postgres/array.go:318-324 | one result per match |
| PgArrays.ParseArray | dialects/postgres/array.go:315-325 | the loop gives the trimmed matches |
| PgArrays.RunLenOfPrefix | dialects/postgres/array.go:286-287 | an element of plain characters is one run |
| PgArrays.MatchesJoined | dialects/postgres/array.go:283-299 | plain elements joined by commas are matched one by one |
| PgArrays.ParsePlainElements | dialects/postgres/array.go:315-325 | `{e1,...,en}` of plain elements parses to the elements |
| PgArrays.NullWordHasNoElement | field-types.go:85-86 | `{NULL}` yields no element |
| PgArrays.SkipAndRun | field-types.go:85-86 | the letters N, U, L are never part of an unquoted element: `{ANNA}` gives `A`, `A` |
| PgArrays.QuotedElement | dialects/postgres/array.go:290-292 | a quoted element comes out without its quotes |
| PgArrays.EscapedQuoteAtEndIsLost | field-types.go:119-121 | trimming quotes also removes an escaped quote at the end |
| PgArrays.ArrayScan | dialects/postgres/array.go:348-363 | nil source or target is a no-op; a non-byte source or a non-Elemented target fails; else the parsed elements |
| PgArrays.ArrayValue | dialects/postgres/array.go:365-373 | nil is nil; Elemented gives `{` elements joined by `,` `}` |
| PgArrays.ArrayRoundTrip | dialects/postgres/array.go:348-373 | scanning what Value writes gives plain elements back |
| PgArrays.StringArrayCell.Scan | field-types.go:126-137 | a non-byte source fails; else the array becomes the parsed text |
| Hstore.ReplacementsEscape | dialects/postgres/hstore.go:33-34 | the two replacements escape each character on its own |
| Hstore.HQuoteCases | dialects/postgres/hstore.go:19-35 | an invalid NullString is NULL, a string is quoted and escaped, anything else panics |
| Hstore.HstoreCell.Scan | dialects/postgres/hstore.go:41-108 | the byte loop gives the specified map, or nil for NULL |
| Hstore.ScanShortInputs | dialects/postgres/hstore.go:98-105 | NULL gives nil; inputs of at most one byte give an empty map, except a lone comma |
| Hstore.ScanPlain | dialects/postgres/hstore.go:97 | ordinary bytes are appended to the side being read |
| Hstore.ScanEscaped | dialects/postgres/hstore.go:53-70 | inside quotes an escaped text reads back as itself |
| Hstore.ScanQuoted | dialects/postgres/hstore.go:53-70 | a quoted text reads back as itself and marks the pair quoted |
| Hstore.ScanArrow | dialects/postgres/hstore.go:74-81 | `=>` switches to the value |
| Hstore.UnquotedNull | dialects/postgres/hstore.go:83-85 | an unquoted null, in any case, becomes nil |
| Hstore.QuotedNull | dialects/postgres/hstore.go:83-88 | a quoted null is the word itself |
| Hstore.ScanPart | dialects/postgres/hstore.go:53-97 | one written pair reads into the loop variables |
| Hstore.ScanParts | dialects/postgres/hstore.go:82-93 | scanning the joined pairs stores every pair but the last, which is left in the key and value being read |
| Hstore.StoreMeaning | dialects/postgres/hstore.go:82-93 | with distinct keys, every pair is stored and nothing else |
| Hstore.PartsOf | dialects/postgres/hstore.go:116-120 | one part per key, or a panic |
| Hstore.HstoreValue | dialects/postgres/hstore.go:112-122 | the loop gives nil for nil, else the parts joined by `,` |
| Hstore.NilValuePanics | dialects/postgres/hstore.go:19-35 | a nil value cannot be written back |
| Hstore.PartsOfStrings | dialects/postgres/hstore.go:116-120 | the parts of a string map are its quoted pairs |
| Hstore.ScanJoinedParts | dialects/postgres/hstore.go:41-108 | scanning the joined parts stores every pair |
| Hstore.StoreEntries | dialects/postgres/hstore.go:41-108 | storing a map's entries rebuilds the map |
| Hstore.HstoreRoundTrip | dialects/postgres/hstore.go:41-122 | Scan of Value gives back any map of strings, whatever the key order |

## Left out

- Database I/O: `Session.Exec`, `Query`, `QueryRow` and `log_timing`; the execution half of `Count`, `All`, `One`, `Get`, `Update`, `Delete` and `Insert`; `Session.Drop` and `Session.Create` executing their statements; `XRow` and `XRows`. Compilation is modelled; execution is not.
- The console output of `DeclareTable` (xql.go:38-41), which prints the table name and each column, is left out: it is logging only and changes no state.
- `CreateEngine` takes the result of opening the database as a parameter, because `sql.Open` is I/O.
- `CreateSchema`, `InitializeHSTORE` and `InitializeUUID` only execute fixed SQL.
- Reflection: a record is a map from field names to abstract values. The float case of `isEmptyValue` is an abstract flag.
- The `reflect.Zero(t) == fv` test in the record branch of `Update` compares value headers. The model treats it as never true, so only nil pointers and primary keys are skipped.
- Go map iteration order is an explicit enumeration parameter at every map loop.
- `escapePGkw`, `makeColumns`, `buildConstraints` and `buildIndexes` are not part of this model. They are parameters.
- `json.Marshal` and `json.Unmarshal`, so `JSONDictionary(Array)` is modelled only for its nil and wrong-type cases, and `StringArray.Value` is not modelled.
- `pq.Array` and the numeric array `Scan` and `Value` methods only call into that library.
- `Elemented.Strings2Elem` and `Elem2Strings` are interfaces without code here. Scan delivers the parsed strings and cannot fail after parsing.
- `jsonb.go`, `types.go`, `column.go`, `driver.go` and the sqlite dialect are stubs or wrappers.
- `Numeric` has no `Declare` of its own in `field.go`.
- The database/sql conversion rules applied to other source types by `sql.NullString.Scan` are refused with one error message.
- The panic text of a failed type assertion is a fixed message, not Go's.
- `QuerySet` carries no session: the session only executes.
- Strings and byte slices are both sequences of characters, one per byte; `ToLower` is ASCII only.
- Go's slice aliasing on `append` to a copied `QuerySet` is not modelled: lists are immutable sequences.
- Strings.ToLower: lowers ASCII letters only, while Go's `strings.ToLower` also maps other Unicode letters.
- Hstore.HstoreRoundTrip: holds for maps whose values are all strings, because a nil value cannot be written back.
- PgArrays.ArrayRoundTrip: holds for elements of plain characters, because quoted elements keep their escapes.

## Findings

| source | as written | input that shows it | evidently intended | confidence | as-written member | corrected member |
|---|---|---|---|---|---|---|
| driver/postgres/postgres.go:122-129 | each SET item is appended after a space, with no comma | two columns `a`, `b` give ` SET  "a"=$1 "b"=$2` | items separated by `, ` | not executed | LegacyPostgres.LegacySetHasNoComma | LegacyPostgres.CorrectedSetJoined |
