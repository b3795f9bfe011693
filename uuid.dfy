/** What the database driver hands to a Scan method, and the UUID column
    type of dialects/postgres/uuid.go. */
module DriverValues {
  import opened Wrappers

  /** A value from the driver: NULL, a byte slice, a string, or a value of
      some other Go type. A byte slice holds one char per byte. */
  datatype Source = SrcNil | SrcBytes(bytes: string) | SrcString(s: string) | SrcOther

  /** sql.NullString.Scan: NULL is not valid, text is valid. Other Go types
      are converted by database/sql, which is not part of this model; they
      are refused here. */
  function NullStringScan(src: Source): (r: Result<(bool, string)>)
    ensures r.Ok? <==> !src.SrcOther?
    ensures src.SrcNil? ==> r == Ok((false, ""))
    ensures src.SrcBytes? ==> r == Ok((true, src.bytes))
    ensures src.SrcString? ==> r == Ok((true, src.s))
  {
    match src
    case SrcNil => Ok((false, ""))
    case SrcBytes(b) => Ok((true, b))
    case SrcString(s) => Ok((true, s))
    case SrcOther => Error("unsupported Scan")
  }

  /** What UUID.Scan stores: the text, or "" for NULL. */
  function UuidScanOf(src: Source): Result<string>
  {
    var ns := NullStringScan(src);
    if ns.Error? then Error(ns.msg)
    else if ns.value.0 then Ok(ns.value.1)
    else Ok("")
  }

  /** UUID.Value: the empty UUID is NULL, any other is passed as is. */
  function UuidValue(u: string): Source
  {
    if u == "" then SrcNil else SrcString(u)
  }

  /** UUID.String. */
  function UuidString(u: string): (r: string)
    ensures r == u
  {
    u
  }

  /** NULL reads as the empty UUID and text as itself; the empty UUID is
      written as NULL and no other UUID is. */
  lemma UuidNullMapping(u: string, s: string)
    ensures UuidScanOf(SrcNil) == Ok("")
    ensures UuidScanOf(SrcString(s)) == Ok(s) && UuidScanOf(SrcBytes(s)) == Ok(s)
    ensures UuidValue(u).SrcNil? <==> u == ""
  {
  }

  /** Scanning what Value writes gives the UUID back. */
  lemma UuidRoundTrip(u: string)
    ensures UuidScanOf(UuidValue(u)) == Ok(u)
  {
  }

  /** A UUID column: Scan writes through the receiver (uuid.go:15-25). */
  class UuidCell {
    var u: string

    constructor(u: string)
      ensures this.u == u
    {
      this.u := u;
    }

    method Scan(src: Source) returns (err: Option<string>)
      modifies this
      ensures UuidScanOf(src).Ok? ==> err == None && u == UuidScanOf(src).value
      ensures UuidScanOf(src).Error? ==> err == Some(UuidScanOf(src).msg) && u == old(u)
    {
      var ns := NullStringScan(src);
      if ns.Error? {
        return Some(ns.msg);
      } else if ns.value.0 {
        u := ns.value.1;
      } else {
        u := "";
      }
      return None;
    }
  }

  /** JSONDictionary.Scan (field-types.go:22-38). Decoding JSON is not part
      of this model: what json.Unmarshal makes of the bytes is `decoded`.
      `None` stands for the nil map. */
  function JsonDictionaryScan<D>(src: Source, decoded: Result<D>): (r: Result<Option<D>>)
    requires !decoded.Panic?
    ensures src.SrcNil? ==> r == Ok(None)
    ensures !src.SrcNil? && !src.SrcBytes? ==> r == Error("Type assertion .([]byte) failed.")
    ensures src.SrcBytes? && decoded.Ok? ==> r == Ok(Some(decoded.value))
    ensures src.SrcBytes? && decoded.Error? ==> r == Error(decoded.msg)
  {
    if src.SrcNil? then Ok(None)
    else if !src.SrcBytes? then Error("Type assertion .([]byte) failed.")
    else if decoded.Error? then Error(decoded.msg)
    else Ok(Some(decoded.value))
  }
}
