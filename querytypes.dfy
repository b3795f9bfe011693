/** The query-description values of query-types.go, and the run-time values
    that filters, update columns and records carry. */
module QueryTypes {

  /** ConditionType and OrderType are unsigned integers in Go; only the two
      named values of each have a meaning (query-types.go:3-15). */
  const ConditionAnd: nat := 0
  const ConditionOr: nat := 1
  const OrderAsc: nat := 0
  const OrderDesc: nat := 1

  /** A Go `interface{}` value, as far as the model inspects it: the kinds
      isEmptyValue tells apart (dialects/postgres/postgres.go:298-314).
      Floating-point values only record whether they are zero. */
  datatype Value =
    | VNil
    | VString(s: string)
    | VBool(b: bool)
    | VInt(i: int)
    | VUint(u: nat)
    | VFloat(isZero: bool)
    | VList(len: nat)        // array, slice or map
    | VPtr(isNil: bool)      // pointer
    | VIface(isNil: bool)    // interface
    | VOther                 // struct, func, channel, ...

  /** query-types.go:17-24. With an empty operator the filter is raw text and
      its value is not used; `reversed` puts the value on the left. */
  datatype QueryFilter = QueryFilter(
    condition: nat,
    reversed: bool,
    field: string,
    operator: string,
    fn: string,
    value: Value)

  /** query-types.go:26-29. */
  datatype QueryOrder = QueryOrder(kind: nat, field: string)

  /** query-types.go:31-35. */
  datatype QueryColumn = QueryColumn(fieldName: string, fn: string, alias: string)

  /** query-types.go:37-41. */
  datatype UpdateColumn = UpdateColumn(field: string, operator: string, value: Value)

  /** A value of a mapped struct type: its Go type and its fields by name. */
  datatype Record = Record(typeName: string, fields: map<string, Value>)
}
