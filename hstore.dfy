/** The hstore text codec of dialects/postgres/hstore.go, repeated for
    HSTOREDictionary in field-types.go:148-251. Text is a sequence of chars,
    one per byte. A map value is what the Go `interface{}` holds: nil, a
    string, an sql.NullString, or something else. */
module Hstore {
  import opened Wrappers
  import opened Assoc
  import opened Strings
  import opened DriverValues

  datatype HValue = HNil | HString(s: string) | HNullString(valid: bool, str: string) | HOther

  /** A Go map value; `None` is the nil map. */
  type HMap = Option<map<string, HValue>>

  // ---- hQuote (hstore.go:19-35, field-types.go:148-164) ----

  /** The escape of one character: a backslash or a quote gets a backslash
      before it. */
  function EscChar(c: char): string
  {
    if c == '\\' then "\\\\" else if c == '"' then "\\\"" else [c]
  }

  function Escape(s: string): string
  {
    if s == [] then [] else EscChar(s[0]) + Escape(s[1..])
  }

  /** A text escaped and put in double quotes. */
  function Quoted(s: string): string
  {
    "\"" + Escape(s) + "\""
  }

  /** hQuote: an invalid NullString is the bare word NULL; a string or a
      valid NullString is quoted after doubling backslashes and escaping
      quotes; anything else panics. */
  function HQuote(v: HValue): Result<string>
  {
    match v
    case HNullString(valid, str) =>
      if !valid then Ok("NULL") else Ok("\"" + ReplaceChar(ReplaceChar(str, '\\', "\\\\"), '"', "\\\"") + "\"")
    case HString(s) => Ok("\"" + ReplaceChar(ReplaceChar(s, '\\', "\\\\"), '"', "\\\"") + "\"")
    case _ => Panic("not a string or sql.NullString")
  }

  lemma {:induction false} ReplaceCharAppend(a: string, b: string, c: char, rep: string)
    ensures ReplaceChar(a + b, c, rep) == ReplaceChar(a, c, rep) + ReplaceChar(b, c, rep)
  {
    if a != [] {
      assert (a + b)[1..] == a[1..] + b;
      ReplaceCharAppend(a[1..], b, c, rep);
    } else {
      assert a + b == b;
    }
  }

  /** The two replacements in a row escape each character on its own: the
      second one never sees a quote made by the first. */
  lemma {:induction false} ReplacementsEscape(s: string)
    ensures ReplaceChar(ReplaceChar(s, '\\', "\\\\"), '"', "\\\"") == Escape(s)
  {
    if s != [] {
      ReplacementsEscape(s[1..]);
      var first := if s[0] == '\\' then "\\\\" else [s[0]];
      assert ReplaceChar(s, '\\', "\\\\") == first + ReplaceChar(s[1..], '\\', "\\\\");
      ReplaceCharAppend(first, ReplaceChar(s[1..], '\\', "\\\\"), '"', "\\\"");
      if s[0] == '\\' {
        assert ReplaceChar("\\\\", '"', "\\\"") == "\\\\" by {
          assert "\\\\"[1..] == "\\";
          assert ReplaceChar("\\", '"', "\\\"") == "\\";
        }
      } else {
        assert ReplaceChar([s[0]], '"', "\\\"") == EscChar(s[0]);
      }
    }
  }

  /** What hQuote makes of the possible values. */
  lemma HQuoteCases(s: string, v: HValue)
    ensures HQuote(HString(s)) == Ok(Quoted(s))
    ensures HQuote(HNullString(true, s)) == HQuote(HString(s))
    ensures HQuote(HNullString(false, s)) == Ok("NULL")
    ensures HQuote(v).Panic? <==> v.HNil? || v.HOther?
  {
    ReplacementsEscape(s);
  }

  // ---- Scan (hstore.go:41-108, field-types.go:170-237) ----

  /** The loop's variables: the key and value being read (`pair`), which of
      them gets the next byte (`pi`), the three flags, and the map. */
  datatype ScanState = ScanState(key: string, val: string, pi: nat, inQuote: bool,
                                 didQuote: bool, sawSlash: bool, m: map<string, HValue>)

  const Start := ScanState([], [], 0, false, false, false, map[])

  function Append(st: ScanState, s: string): ScanState
  {
    if st.pi == 0 then st.(key := st.key + s) else st.(val := st.val + s)
  }

  /** An unquoted value spelled null in any case stands for NULL. */
  predicate IsNullWord(s: string)
  {
    |s| == 4 && ToLower(s) == "null"
  }

  /** The map with the pair being read stored. */
  function Commit(st: ScanState): map<string, HValue>
  {
    st.m[st.key := if !st.didQuote && IsNullWord(st.val) then HNil else HString(st.val)]
  }

  function ScanStep(st: ScanState, b: char): ScanState
  {
    if st.sawSlash then Append(st, [b]).(sawSlash := false)
    else if b == '\\' then st.(sawSlash := true)
    else if b == '"' then st.(inQuote := !st.inQuote, didQuote := true)
    else if !st.inQuote && (b == ' ' || b == '\t' || b == '\n' || b == '\r' || b == '=') then st
    else if !st.inQuote && b == '>' then st.(pi := 1, didQuote := false)
    else if !st.inQuote && b == ',' then st.(m := Commit(st), key := [], val := [], pi := 0)
    else Append(st, [b])
  }

  function ScanAll(st: ScanState, bs: string): ScanState
  {
    if bs == [] then st else ScanStep(ScanAll(st, bs[..|bs| - 1]), bs[|bs| - 1])
  }

  /** The map Scan stores: nil for NULL; otherwise the pairs read, with
      the last one stored only when the input is longer than one byte.
      A source that is not a byte slice makes the type assertion panic. */
  function HstoreScanOf(src: Source): Result<HMap>
  {
    if src.SrcNil? then Ok(None)
    else if !src.SrcBytes? then Panic("interface conversion: value is not []byte")
    else
      var st := ScanAll(Start, src.bytes);
      Ok(Some(if |src.bytes| > 1 then Commit(st) else st.m))
  }

  /** A column of type HSTORE (or HSTOREDictionary): Scan writes the map
      through the receiver. */
  class HstoreCell {
    var h: HMap

    constructor(h: HMap)
      ensures this.h == h
    {
      this.h := h;
    }

    method Scan(src: Source) returns (panicked: Option<string>)
      modifies this
      ensures HstoreScanOf(src).Ok? ==> panicked == None && h == HstoreScanOf(src).value
      ensures !HstoreScanOf(src).Ok? ==> panicked == Some(HstoreScanOf(src).msg) && h == old(h)
    {
      if src.SrcNil? {
        h := None;
        return None;
      }
      if !src.SrcBytes? {
        return Some("interface conversion: value is not []byte");
      }
      var value := src.bytes;
      var m: map<string, HValue> := map[];
      var key: string := [];
      var val: string := [];
      var pi: nat := 0;
      var inQuote := false;
      var didQuote := false;
      var sawSlash := false;
      var bindex := 0;
      var i := 0;
      while i < |value|
        invariant 0 <= i <= |value|
        invariant ScanState(key, val, pi, inQuote, didQuote, sawSlash, m) == ScanAll(Start, value[..i])
        invariant bindex == if i == 0 then 0 else i - 1
      {
        var b := value[i];
        assert value[..i + 1][..i] == value[..i];
        bindex := i;
        if sawSlash {
          if pi == 0 { key := key + [b]; } else { val := val + [b]; }
          sawSlash := false;
        } else if b == '\\' {
          sawSlash := true;
        } else if b == '"' {
          inQuote := !inQuote;
          if !didQuote {
            didQuote := true;
          }
        } else if !inQuote && (b == ' ' || b == '\t' || b == '\n' || b == '\r') {
        } else if !inQuote && b == '=' {
        } else if !inQuote && b == '>' {
          pi := 1;
          didQuote := false;
        } else if !inQuote && b == ',' {
          if !didQuote && |val| == 4 && ToLower(val) == "null" {
            m := m[key := HNil];
          } else {
            m := m[key := HString(val)];
          }
          key := [];
          val := [];
          pi := 0;
        } else {
          if pi == 0 { key := key + [b]; } else { val := val + [b]; }
        }
        i := i + 1;
      }
      assert value[..i] == value;
      if bindex > 0 {
        if !didQuote && |val| == 4 && ToLower(val) == "null" {
          m := m[key := HNil];
        } else {
          m := m[key := HString(val)];
        }
      }
      h := Some(m);
      return None;
    }
  }

  /** NULL scans to the nil map, and an input of at most one byte to the
      empty map: the last pair is only stored after the second byte. A lone
      comma still stores the empty pair inside the loop. */
  lemma ScanShortInputs(c: char)
    ensures HstoreScanOf(SrcNil) == Ok(None)
    ensures HstoreScanOf(SrcBytes("")) == Ok(Some(map[]))
    ensures c != ',' ==> HstoreScanOf(SrcBytes([c])) == Ok(Some(map[]))
    ensures HstoreScanOf(SrcBytes(",")) == Ok(Some(map["" := HString("")]))
  {
    ScanOne(Start, c);
    ScanOne(Start, ',');
    assert Commit(Start) == map["" := HString("")];
  }

  /** Characters that are read as they are, in or out of quotes. */
  predicate Plain(c: char)
  {
    c != '\\' && c != '"' && c != ' ' && c != '\t' && c != '\n' && c != '\r' && c != '=' && c != '>' && c != ','
  }

  /** Plain characters are appended to the side being read. */
  lemma {:induction false} ScanPlain(st: ScanState, s: string)
    requires !st.sawSlash
    requires forall i :: 0 <= i < |s| ==> Plain(s[i])
    ensures ScanAll(st, s) == Append(st, s)
    decreases |s|
  {
    if s == [] {
      assert Append(st, s) == st;
    } else {
      var init := s[..|s| - 1];
      ScanPlain(st, init);
      assert init + [s[|s| - 1]] == s;
    }
  }

  /** Two characters read in a row. */
  lemma ScanTwo(st: ScanState, a: char, b: char)
    ensures ScanAll(st, [a, b]) == ScanStep(ScanStep(st, a), b)
  {
    assert [a, b][..1] == [a];
    ScanOne(st, a);
  }

  /** The key `a` and the arrow, read from the start. */
  lemma ScanKeyArrow()
    ensures ScanAll(Start, "a=>") == Start.(key := "a", pi := 1)
  {
    var a := Start.(key := "a");
    ScanPlain(Start, "a");
    ScanTwo(a, '=', '>');
    ScanAllAppend(Start, "a", "=>");
    assert "a=>" == "a" + "=>";
  }

  lemma LowerNull()
    ensures IsNullWord("NuLl")
  {
    assert "NuLl"[1..] == "uLl" && "uLl"[1..] == "Ll" && "Ll"[1..] == "l" && "l"[1..] == [];
  }

  /** An unquoted null, in any case, is NULL. */
  lemma UnquotedNull()
    ensures HstoreScanOf(SrcBytes("a=>NuLl")) == Ok(Some(map["a" := HNil]))
  {
    var b := Start.(key := "a", pi := 1);
    var st := b.(val := "NuLl");
    assert ScanAll(Start, "a=>NuLl") == st by {
      ScanKeyArrow();
      ScanPlain(b, "NuLl");
      ScanAllAppend(Start, "a=>", "NuLl");
      UnquotedNullText();
    }
    assert Commit(st) == map["a" := HNil] by {
      LowerNull();
    }
  }

  lemma UnquotedNullText()
    ensures "a=>NuLl" == "a=>" + "NuLl"
  {
  }

  lemma QuotedNullText()
    ensures "a=>\"null\"" == "a=>" + "\"null\""
  {
  }

  /** A quoted null is the word itself. */
  lemma QuotedNull()
    ensures HstoreScanOf(SrcBytes("a=>\"null\"")) == Ok(Some(map["a" := HString("null")]))
  {
    var b := Start.(key := "a", pi := 1);
    assert Quoted("null") == "\"null\"" by {
      assert Escape("null") == "null" by {
        assert "null"[1..] == "ull" && "ull"[1..] == "ll" && "ll"[1..] == "l" && "l"[1..] == [];
      }
    }
    assert ScanAll(Start, "a=>") == b by {
      ScanKeyArrow();
    }
    assert ScanAll(b, "\"null\"") == b.(val := "null", didQuote := true) by {
      ScanQuoted(b, "null");
    }
    var st := b.(val := "null", didQuote := true);
    assert ScanAll(Start, "a=>\"null\"") == st by {
      QuotedNullText();
      ScanAllAppend(Start, "a=>", "\"null\"");
    }
    assert Commit(st) == map["a" := HString("null")];
  }

  /** Reading two pieces in a row is reading them joined. */
  lemma {:induction false} ScanAllAppend(st: ScanState, a: string, b: string)
    ensures ScanAll(st, a + b) == ScanAll(ScanAll(st, a), b)
    decreases |b|
  {
    if b == [] {
      assert a + b == a;
    } else {
      var init := b[..|b| - 1];
      assert (a + b)[..|a + b| - 1] == a + init;
      ScanAllAppend(st, a, init);
    }
  }

  lemma ScanOne(st: ScanState, c: char)
    ensures ScanAll(st, [c]) == ScanStep(st, c)
  {
    assert [c][..0] == [];
  }

  /** Inside quotes, an escaped character is read back as itself. */
  lemma ScanEscChar(st: ScanState, c: char)
    requires st.inQuote && !st.sawSlash
    ensures ScanAll(st, EscChar(c)) == Append(st, [c])
  {
    if c == '\\' || c == '"' {
      ScanTwo(st, '\\', c);
    } else {
      ScanOne(st, c);
    }
  }

  lemma AppendTwice(st: ScanState, a: string, b: string)
    ensures Append(Append(st, a), b) == Append(st, a + b)
  {
    assert st.key + a + b == st.key + (a + b);
    assert st.val + a + b == st.val + (a + b);
  }

  /** Inside quotes, an escaped text is read back as the text itself. */
  lemma {:induction false} ScanEscaped(st: ScanState, s: string)
    requires st.inQuote && !st.sawSlash
    ensures ScanAll(st, Escape(s)) == Append(st, s)
    decreases |s|
  {
    if s == [] {
      assert Append(st, s) == st;
    } else {
      var c := s[0];
      ScanAllAppend(st, EscChar(c), Escape(s[1..]));
      ScanEscChar(st, c);
      var mid := Append(st, [c]);
      ScanEscaped(mid, s[1..]);
      AppendTwice(st, [c], s[1..]);
      assert [c] + s[1..] == s;
    }
  }

  // ---- Value (hstore.go:112-122, field-types.go:241-251) ----

  /** The text of one pair: both sides quoted, joined by `=>`. */
  function PartOf(k: string, v: HValue): Result<string>
  {
    var qv := HQuote(v);
    if qv.Ok? then Ok(HQuote(HString(k)).value + "=>" + qv.value) else qv
  }

  /** The parts in the order `keys` visits the map; the first value hQuote
      refuses panics. */
  function PartsOf(m: map<string, HValue>, keys: seq<string>): (r: Result<seq<string>>)
    requires forall k :: k in keys ==> k in m
    ensures r.Ok? ==> |r.value| == |keys|
    ensures !r.Error?
  {
    if keys == [] then Ok([])
    else
      var prev := PartsOf(m, keys[..|keys| - 1]);
      var p := PartOf(keys[|keys| - 1], m[keys[|keys| - 1]]);
      if !prev.Ok? then prev
      else if !p.Ok? then Panic(p.msg)
      else Ok(prev.value + [p.value])
  }

  /** Value: nil for the nil map, else the parts joined by commas. */
  function HstoreValueOf(h: HMap, keys: seq<string>): Result<Option<string>>
    requires h.Some? ==> Enumerates(keys, h.value)
  {
    if h.None? then Ok(None)
    else
      var parts := PartsOf(h.value, keys);
      if parts.Ok? then Ok(Some(Join(parts.value, ","))) else Panic(parts.msg)
  }

  method HstoreValue(h: HMap, keys: seq<string>) returns (r: Result<Option<string>>)
    requires h.Some? ==> Enumerates(keys, h.value)
    ensures r == HstoreValueOf(h, keys)
  {
    if h.None? {
      return Ok(None);
    }
    var m := h.value;
    var parts: seq<string> := [];
    var i := 0;
    while i < |keys|
      invariant 0 <= i <= |keys|
      invariant PartsOf(m, keys[..i]) == Ok(parts)
    {
      var key := keys[i];
      assert keys[..i + 1][..i] == keys[..i];
      var qk := HQuote(HString(key));
      var qv := HQuote(m[key]);
      if !qv.Ok? {
        var bad := qv.msg;
        PartsPanicFrom(m, keys, i, |keys|, bad);
        assert keys[..|keys|] == keys;
        return Panic(bad);
      }
      parts := parts + [qk.value + "=>" + qv.value];
      i := i + 1;
    }
    assert keys[..i] == keys;
    r := Ok(Some(Join(parts, ",")));
  }

  lemma {:induction false} PartsPanicFrom(m: map<string, HValue>, keys: seq<string>, i: nat, n: nat, bad: string)
    requires i < n <= |keys| && forall k :: k in keys ==> k in m
    requires PartsOf(m, keys[..i]).Ok?
    requires !PartOf(keys[i], m[keys[i]]).Ok? && PartOf(keys[i], m[keys[i]]).msg == bad
    ensures PartsOf(m, keys[..n]) == Panic(bad)
    decreases n
  {
    var pre := keys[..n];
    assert pre[..n - 1] == keys[..n - 1];
    assert forall k :: k in pre ==> k in m;
    assert forall k :: k in keys[..n - 1] ==> k in m;
    if n - 1 > i {
      PartsPanicFrom(m, keys, i, n - 1, bad);
    } else {
      assert pre[n - 1] == keys[i];
      HQuoteCases(keys[i], m[keys[i]]);
    }
  }

  /** A map holding a nil value, which Scan makes of NULL, cannot be
      written back: hQuote panics on it. */
  lemma NilValuePanics(m: map<string, HValue>, keys: seq<string>, k: string)
    requires Enumerates(keys, m)
    requires k in m && m[k].HNil?
    ensures HstoreValueOf(Some(m), keys).Panic?
  {
    var i :| 0 <= i < |keys| && keys[i] == k;
    PartsPanicSome(m, keys, i);
  }

  lemma {:induction false} PartsPanicSome(m: map<string, HValue>, keys: seq<string>, i: nat)
    requires i < |keys| && forall k :: k in keys ==> k in m
    requires m[keys[i]].HNil?
    ensures PartsOf(m, keys).Panic?
    decreases |keys|
  {
    var init := keys[..|keys| - 1];
    assert forall k :: k in init ==> k in m;
    HQuoteCases(keys[i], m[keys[i]]);
    if i < |keys| - 1 {
      assert init[i] == keys[i];
      PartsPanicSome(m, init, i);
    }
  }

  // ---- Scan(Value(h)) == h ----

  /** Between pairs: nothing is being read and no quote is open. */
  function Clean(d: bool, m: map<string, HValue>): ScanState
  {
    ScanState([], [], 0, false, d, false, m)
  }

  /** After a pair: its key and quoted value are read, nothing is stored. */
  function Filled(k: string, v: string, m: map<string, HValue>): ScanState
  {
    ScanState(k, v, 1, false, true, false, m)
  }

  function Part(k: string, v: string): string
  {
    Quoted(k) + "=>" + Quoted(v)
  }

  /** Out of quotes, a quoted text is read back as the text itself, and
      marks the pair as quoted. */
  lemma ScanQuoted(st: ScanState, s: string)
    requires !st.inQuote && !st.sawSlash
    ensures ScanAll(st, Quoted(s)) == Append(st, s).(didQuote := true)
  {
    var st1 := st.(inQuote := true, didQuote := true);
    ScanOne(st, '"');
    ScanEscaped(st1, s);
    ScanAllAppend(st, "\"", Escape(s));
    ScanOne(Append(st1, s), '"');
    ScanAllAppend(st, "\"" + Escape(s), "\"");
  }

  /** Out of quotes, the arrow switches to the value. */
  lemma ScanArrow(st: ScanState)
    requires !st.inQuote && !st.sawSlash
    ensures ScanAll(st, "=>") == st.(pi := 1, didQuote := false)
  {
    ScanTwo(st, '=', '>');
  }

  lemma ScanPart(d: bool, m: map<string, HValue>, k: string, v: string)
    ensures ScanAll(Clean(d, m), Part(k, v)) == Filled(k, v, m)
  {
    var st0 := Clean(d, m);
    var st1 := st0.(key := k, didQuote := true);
    var st2 := st1.(pi := 1, didQuote := false);
    assert ScanAll(st0, Quoted(k)) == st1 by {
      ScanQuoted(st0, k);
    }
    assert ScanAll(st0, Quoted(k) + "=>") == st2 by {
      ScanArrow(st1);
      ScanAllAppend(st0, Quoted(k), "=>");
    }
    assert ScanAll(st2, Quoted(v)) == Filled(k, v, m) by {
      ScanQuoted(st2, v);
    }
    ScanAllAppend(st0, Quoted(k) + "=>", Quoted(v));
  }

  /** Storing pairs front to back. */
  function Store(m: map<string, HValue>, es: seq<(string, string)>): map<string, HValue>
    decreases |es|
  {
    if es == [] then m else Store(m[es[0].0 := HString(es[0].1)], es[1..])
  }

  function Parts(es: seq<(string, string)>): (r: seq<string>)
    ensures |r| == |es|
  {
    if es == [] then [] else [Part(es[0].0, es[0].1)] + Parts(es[1..])
  }

  /** Reading the joined parts stores every pair but the last, which is
      left in the loop variables. */
  lemma {:induction false} ScanParts(d: bool, m: map<string, HValue>, es: seq<(string, string)>)
    requires es != []
    ensures ScanAll(Clean(d, m), Join(Parts(es), ",")) ==
      Filled(es[|es| - 1].0, es[|es| - 1].1, Store(m, es[..|es| - 1]))
    decreases |es|
  {
    var e := es[0];
    if |es| == 1 {
      ScanPart(d, m, e.0, e.1);
      assert Join(Parts(es), ",") == Part(e.0, e.1);
      assert Store(m, es[..0]) == m;
    } else {
      var rest := es[1..];
      var m1 := m[e.0 := HString(e.1)];
      var tail := Join(Parts(rest), ",");
      assert ScanAll(Clean(d, m), Join(Parts(es), ",")) == ScanAll(Clean(true, m1), tail) by {
        JoinPartsCons(es);
        ScanPartComma(d, m, e.0, e.1);
        ScanAllAppend(Clean(d, m), Part(e.0, e.1) + ",", tail);
      }
      ScanParts(true, m1, rest);
      StoreFront(m, es);
    }
  }

  /** The joined parts of two or more pairs: the first part, a comma, the rest. */
  lemma JoinPartsCons(es: seq<(string, string)>)
    requires |es| >= 2
    ensures Join(Parts(es), ",") == (Part(es[0].0, es[0].1) + ",") + Join(Parts(es[1..]), ",")
  {
    assert Parts(es)[1..] == Parts(es[1..]);
  }

  /** Storing all but the last pair is storing the first, then all but the
      last of the rest; the last pair is the rest's last pair. */
  lemma StoreFront(m: map<string, HValue>, es: seq<(string, string)>)
    requires |es| >= 2
    ensures Store(m, es[..|es| - 1]) == Store(m[es[0].0 := HString(es[0].1)], es[1..][..|es| - 2])
    ensures es[1..][|es| - 2] == es[|es| - 1]
  {
    assert es[..|es| - 1][1..] == es[1..][..|es| - 2];
  }

  /** A pair and the comma after it: the pair is stored and the loop
      variables are reset. */
  lemma ScanPartComma(d: bool, m: map<string, HValue>, k: string, v: string)
    ensures ScanAll(Clean(d, m), Part(k, v) + ",") == Clean(true, m[k := HString(v)])
  {
    ScanPart(d, m, k, v);
    ScanAllAppend(Clean(d, m), Part(k, v), ",");
    ScanOne(Filled(k, v, m), ',');
  }

  lemma {:induction false} StoreSnoc(m: map<string, HValue>, es: seq<(string, string)>, e: (string, string))
    ensures Store(m, es + [e]) == Store(m, es)[e.0 := HString(e.1)]
    decreases |es|
  {
    if es != [] {
      assert (es + [e])[1..] == es[1..] + [e];
      StoreSnoc(m[es[0].0 := HString(es[0].1)], es[1..], e);
    }
  }

  /** With distinct keys, every pair is stored and no other key is added. */
  lemma {:induction false} StoreMeaning(m: map<string, HValue>, es: seq<(string, string)>, k: string)
    requires forall i, j :: 0 <= i < j < |es| ==> es[i].0 != es[j].0
    ensures (forall i :: 0 <= i < |es| ==> es[i].0 != k) ==>
      (k in Store(m, es) <==> k in m) && (k in m ==> Store(m, es)[k] == m[k])
    ensures forall i :: 0 <= i < |es| && es[i].0 == k ==> k in Store(m, es) && Store(m, es)[k] == HString(es[i].1)
    decreases |es|
  {
    if es != [] {
      var m1 := m[es[0].0 := HString(es[0].1)];
      StoreMeaning(m1, es[1..], k);
      forall i | 0 <= i < |es| && es[i].0 == k
        ensures k in Store(m, es) && Store(m, es)[k] == HString(es[i].1)
      {
        if i > 0 {
          assert es[1..][i - 1] == es[i];
        } else {
          assert forall j :: 0 <= j < |es[1..]| ==> es[1..][j].0 != k by {
            forall j | 0 <= j < |es[1..]|
              ensures es[1..][j].0 != k
            {
              assert es[1..][j] == es[j + 1];
            }
          }
        }
      }
      if forall i :: 0 <= i < |es| ==> es[i].0 != k {
        assert forall j :: 0 <= j < |es[1..]| ==> es[1..][j].0 != k by {
          forall j | 0 <= j < |es[1..]|
            ensures es[1..][j].0 != k
          {
            assert es[1..][j] == es[j + 1];
          }
        }
      }
    }
  }

  /** The map's entries in the order of `keys`, for a map of strings. */
  function Entries(m: map<string, HValue>, keys: seq<string>): (es: seq<(string, string)>)
    requires forall k :: k in keys ==> k in m && m[k].HString?
    ensures |es| == |keys| && forall i :: 0 <= i < |keys| ==> es[i] == (keys[i], m[keys[i]].s)
  {
    if keys == [] then [] else Entries(m, keys[..|keys| - 1]) + [(keys[|keys| - 1], m[keys[|keys| - 1]].s)]
  }

  /** hQuote of a string key and a string value gives the quoted pair. */
  lemma PartOfString(k: string, v: string)
    ensures PartOf(k, HString(v)) == Ok(Part(k, v))
  {
    HQuoteCases(k, HString(v));
    HQuoteCases(v, HString(v));
  }

  /** The parts Value writes for a map of strings are the quoted pairs. */
  lemma {:induction false} PartsOfStrings(m: map<string, HValue>, keys: seq<string>)
    requires forall k :: k in keys ==> k in m && m[k].HString?
    ensures PartsOf(m, keys) == Ok(Parts(Entries(m, keys)))
  {
    if keys != [] {
      var init := keys[..|keys| - 1];
      var k := keys[|keys| - 1];
      assert forall x :: x in init ==> x in keys;
      PartsOfStrings(m, init);
      PartOfString(k, m[k].s);
      assert m[k] == HString(m[k].s);
      PartsSnoc(Entries(m, init), (k, m[k].s));
    }
  }

  lemma {:induction false} PartsSnoc(es: seq<(string, string)>, e: (string, string))
    ensures Parts(es + [e]) == Parts(es) + [Part(e.0, e.1)]
    decreases |es|
  {
    if es != [] {
      assert (es + [e])[1..] == es[1..] + [e];
      PartsSnoc(es[1..], e);
    }
  }

  /** Scanning the joined parts of distinct keys stores every pair. */
  lemma ScanJoinedParts(es: seq<(string, string)>)
    requires es != []
    ensures HstoreScanOf(SrcBytes(Join(Parts(es), ","))) == Ok(Some(Store(map[], es)))
  {
    ScanParts(false, map[], es);
    assert Clean(false, map[]) == Start;
    JoinedPartsLong(es);
    StoreSnoc(map[], es[..|es| - 1], es[|es| - 1]);
    FrontLast(es);
  }

  /** Joined parts are longer than the one-byte inputs Scan treats apart. */
  lemma JoinedPartsLong(es: seq<(string, string)>)
    requires es != []
    ensures |Join(Parts(es), ",")| > 1
  {
    var text := Join(Parts(es), ",");
    assert Parts(es)[0] == Part(es[0].0, es[0].1);
    assert |Part(es[0].0, es[0].1)| >= 2;
    if |es| > 1 {
      assert text == Parts(es)[0] + "," + Join(Parts(es)[1..], ",");
    }
  }

  /** Storing a map's entries, each key once, rebuilds the map. */
  lemma StoreEntries(m: map<string, HValue>, keys: seq<string>)
    requires Enumerates(keys, m)
    requires forall k :: k in m ==> m[k].HString?
    ensures Store(map[], Entries(m, keys)) == m
  {
    var es := Entries(m, keys);
    var result := Store(map[], es);
    assert forall i, j :: 0 <= i < j < |es| ==> es[i].0 != es[j].0;
    forall k | true
      ensures k in result <==> k in m
      ensures k in m ==> result[k] == m[k]
    {
      StoreMeaning(map[], es, k);
      if k in m {
        var i :| 0 <= i < |keys| && keys[i] == k;
        assert es[i].0 == k;
      }
    }
  }

  /** A map whose values are all strings survives Value and then Scan,
      whatever order Value visits it in. */
  lemma HstoreRoundTrip(m: map<string, HValue>, keys: seq<string>)
    requires Enumerates(keys, m)
    requires forall k :: k in m ==> m[k].HString?
    ensures HstoreValueOf(Some(m), keys).Ok? && HstoreValueOf(Some(m), keys).value.Some?
    ensures HstoreScanOf(SrcBytes(HstoreValueOf(Some(m), keys).value.value)) == Ok(Some(m))
  {
    PartsOfStrings(m, keys);
    var es := Entries(m, keys);
    if keys == [] {
      assert m == map[];
    } else {
      ScanJoinedParts(es);
      StoreEntries(m, keys);
    }
  }
}
