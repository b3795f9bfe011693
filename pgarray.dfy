/** Postgres array literals (dialects/postgres/array.go:283-373 and the copy
    in field-types.go:82-137). Elements are found by a regular expression;
    the model states what Go's leftmost-first matcher finds with it. */
module PgArrays {
  import opened Wrappers
  import opened Strings
  import opened DriverValues

  /** `\s` in Go's regular expressions. */
  predicate IsSpace(c: char)
  {
    c == ' ' || c == '\t' || c == '\n' || c == 12 as char || c == '\r'
  }

  /** The class `[^",\\{}\s(NULL)]`: the letters of NULL and the two
      parentheses are single excluded characters, not a word. */
  predicate Unquoted(c: char)
  {
    !(c == '"' || c == ',' || c == '\\' || c == '{' || c == '}' || IsSpace(c)
      || c == '(' || c == 'N' || c == 'U' || c == 'L' || c == ')')
  }

  /** The length of the longest prefix of unquoted characters. */
  function RunLen(t: string): (e: nat)
    ensures e <= |t|
    ensures forall k :: 0 <= k < e ==> Unquoted(t[k])
    ensures e < |t| ==> !Unquoted(t[e])
  {
    if t != [] && Unquoted(t[0]) then 1 + RunLen(t[1..]) else 0
  }

  /** After an opening quote: the index of the closing quote, where the
      body is characters other than a quote or backslash and the escapes
      `\"` and `\\`; None when the body runs into anything else. */
  function QuotedLen(u: string): (r: Option<nat>)
    ensures r.Some? ==> r.value < |u| && u[r.value] == '"'
  {
    if u == [] then None
    else if u[0] == '"' then Some(0)
    else if u[0] == '\\' then
      if |u| >= 2 && (u[1] == '"' || u[1] == '\\') then
        var q := QuotedLen(u[2..]);
        if q.Some? then Some(q.value + 2) else None
      else None
    else
      var q := QuotedLen(u[1..]);
      if q.Some? then Some(q.value + 1) else None
  }

  /** The optional comma that may end a match. */
  function SkipComma(t: string): (r: string)
    ensures |r| <= |t|
  {
    if t != [] && t[0] == ',' then t[1..] else t
  }

  /** The `value` group of every match FindAllStringSubmatch reports, in
      order: at each position an unquoted run is tried first, then a quoted
      element; where neither matches the search moves one character on. */
  function Matches(t: string): seq<string>
    decreases |t|
  {
    if t == [] then []
    else if Unquoted(t[0]) then
      var e := RunLen(t);
      [t[..e]] + Matches(SkipComma(t[e..]))
    else if t[0] == '"' && QuotedLen(t[1..]).Some? then
      var q := QuotedLen(t[1..]).value + 2;
      [t[..q]] + Matches(SkipComma(t[q..]))
    else Matches(t[1..])
  }

  function DropLeadingQuotes(s: string): string
  {
    if s != [] && s[0] == '"' then DropLeadingQuotes(s[1..]) else s
  }

  function DropTrailingQuotes(s: string): string
  {
    if s != [] && s[|s| - 1] == '"' then DropTrailingQuotes(s[..|s| - 1]) else s
  }

  /** strings.Trim(s, "\""): every leading and trailing quote goes. */
  function TrimQuotes(s: string): string
  {
    DropTrailingQuotes(DropLeadingQuotes(s))
  }

  /** Every match with its quotes trimmed, in order. */
  function TrimAll(ms: seq<string>): (r: seq<string>)
    ensures |r| == |ms|
  {
    if ms == [] then [] else TrimAll(ms[..|ms| - 1]) + [TrimQuotes(ms[|ms| - 1])]
  }

  /** The elements parseArray returns. */
  function ParseArrayOf(s: string): (r: seq<string>)
  {
    TrimAll(Matches(s))
  }

  /** parseArray: the matches with their quotes trimmed. */
  method ParseArray(text: string) returns (results: seq<string>)
    ensures results == ParseArrayOf(text)
  {
    results := [];
    var matches := Matches(text);
    var i := 0;
    while i < |matches|
      invariant 0 <= i <= |matches|
      invariant results == TrimAll(matches[..i])
    {
      assert matches[..i + 1][..i] == matches[..i];
      var s := TrimQuotes(matches[i]);
      results := results + [s];
      i := i + 1;
    }
    assert matches[..i] == matches;
  }

  // ---- what the matcher finds ----

  /** A run of unquoted characters ends where the first other character
      stands. */
  lemma {:induction false} RunLenOfPrefix(e: string, x: string)
    requires forall k :: 0 <= k < |e| ==> Unquoted(e[k])
    requires x != [] && !Unquoted(x[0])
    ensures RunLen(e + x) == |e|
  {
    if e != [] {
      assert (e + x)[1..] == e[1..] + x;
      RunLenOfPrefix(e[1..], x);
    } else {
      assert e + x == x;
    }
  }

  predicate Plain(e: string)
  {
    e != [] && forall k :: 0 <= k < |e| ==> Unquoted(e[k])
  }

  /** Plain elements joined by commas and closed by a brace are matched
      one by one. */
  lemma {:induction false} MatchesJoined(elems: seq<string>)
    requires forall i :: 0 <= i < |elems| ==> Plain(elems[i])
    ensures Matches(Join(elems, ",") + "}") == elems
    decreases |elems|
  {
    if elems == [] {
      assert Matches("}") == Matches("");
    } else {
      var e := elems[0];
      var rest := elems[1..];
      var t := Join(elems, ",") + "}";
      if rest == [] {
        assert t == e + "}";
        RunLenOfPrefix(e, "}");
        assert t[..|e|] == e;
        assert SkipComma(t[|e|..]) == "}";
        assert Matches("}") == Matches("");
      } else {
        var tail := Join(rest, ",") + "}";
        assert t == e + ("," + tail);
        RunLenOfPrefix(e, "," + tail);
        assert t[..|e|] == e;
        assert t[|e|..] == "," + tail;
        assert SkipComma(t[|e|..]) == tail;
        MatchesJoined(rest);
      }
    }
  }

  predicate NoQuote(e: string)
  {
    forall k :: 0 <= k < |e| ==> e[k] != '"'
  }

  lemma TrimQuotesPlain(e: string)
    requires NoQuote(e)
    ensures TrimQuotes(e) == e
  {
    assert DropLeadingQuotes(e) == e;
    assert DropTrailingQuotes(e) == e;
  }

  /** Every element made of unquoted characters survives the trip through
      an array literal. */
  lemma ParsePlainElements(elems: seq<string>)
    requires forall i :: 0 <= i < |elems| ==> Plain(elems[i])
    ensures ParseArrayOf("{" + Join(elems, ",") + "}") == elems
  {
    var body := Join(elems, ",") + "}";
    assert Matches("{" + Join(elems, ",") + "}") == elems by {
      BraceAssoc(Join(elems, ","));
      MatchesAfterBrace(body);
      MatchesJoined(elems);
    }
    assert TrimAll(elems) == elems by {
      PlainNoQuote(elems);
      TrimAllPlain(elems);
    }
  }

  lemma BraceAssoc(x: string)
    ensures "{" + x + "}" == "{" + (x + "}")
  {
  }

  lemma PlainNoQuote(elems: seq<string>)
    requires forall i :: 0 <= i < |elems| ==> Plain(elems[i])
    ensures forall i :: 0 <= i < |elems| ==> NoQuote(elems[i])
  {
    forall i | 0 <= i < |elems|
      ensures NoQuote(elems[i])
    {
      assert Plain(elems[i]);
    }
  }

  /** An opening brace is skipped. */
  lemma MatchesAfterBrace(x: string)
    ensures Matches("{" + x) == Matches(x)
  {
    assert ("{" + x)[1..] == x;
  }

  /** Trimming changes nothing when no element holds a quote. */
  lemma {:induction false} TrimAllPlain(ms: seq<string>)
    requires forall i :: 0 <= i < |ms| ==> NoQuote(ms[i])
    ensures TrimAll(ms) == ms
  {
    if ms != [] {
      var init := ms[..|ms| - 1];
      TrimAllPlain(init);
      TrimQuotesPlain(ms[|ms| - 1]);
      assert TrimAll(ms) == init + [ms[|ms| - 1]];
    }
  }

  /** The letters of NULL are not element characters, so `{NULL}` has no
      element, and `{ANNA}` has two. */
  lemma NullWordHasNoElement()
    ensures ParseArrayOf("{NULL}") == []
    ensures ParseArrayOf("{ANNA}") == ["A", "A"]
  {
    NullLettersSkipped();
    SkipAndRun();
    TrimAllPlain(["A", "A"]);
  }

  lemma NullLettersSkipped()
    ensures Matches("{NULL}") == []
  {
    assert Matches("}") == [];
    assert Matches("L}") == [];
    assert Matches("LL}") == [];
    assert Matches("ULL}") == [];
    assert Matches("NULL}") == [];
  }

  lemma SkipAndRun()
    ensures Matches("{ANNA}") == ["A", "A"]
  {
    var t1 := "A}";
    assert RunLen(t1) == 1;
    assert t1[..1] == "A" && t1[1..] == "}" && SkipComma("}") == "}";
    assert Matches("}") == [];
    assert Matches(t1) == ["A"];
    assert Matches("NA}") == Matches(t1);
    assert Matches("NNA}") == Matches("NA}");
    var t0 := "ANNA}";
    assert RunLen(t0) == 1;
    assert t0[..1] == "A" && t0[1..] == "NNA}" && SkipComma("NNA}") == "NNA}";
    assert Matches(t0) == ["A", "A"];
    assert Matches("{ANNA}") == Matches(t0);
  }

  /** Trimming a quoted body without quotes gives the body. */
  lemma TrimQuotesQuoted(body: string)
    requires forall k :: 0 <= k < |body| ==> body[k] != '"'
    ensures TrimQuotes("\"" + body + "\"") == body
  {
    var m := "\"" + body + "\"";
    assert m[1..] == body + "\"";
    if body == [] {
      assert DropLeadingQuotes(m) == DropLeadingQuotes(m[1..]);
      assert m[1..][1..] == [];
      assert DropLeadingQuotes(m[1..]) == [];
    } else {
      assert DropLeadingQuotes(m) == DropLeadingQuotes(m[1..]);
      assert DropLeadingQuotes(m[1..]) == m[1..];
      assert (body + "\"")[..|body|] == body;
      assert DropTrailingQuotes(body + "\"") == DropTrailingQuotes(body);
      TrimQuotesPlain(body);
    }
  }

  /** A body with no quote and no backslash runs up to the next quote. */
  lemma {:induction false} QuotedLenOfBody(body: string, x: string)
    requires forall k :: 0 <= k < |body| ==> body[k] != '"' && body[k] != '\\'
    ensures QuotedLen(body + "\"" + x) == Some(|body|)
  {
    if body != [] {
      assert (body + "\"" + x)[1..] == body[1..] + "\"" + x;
      QuotedLenOfBody(body[1..], x);
    } else {
      assert body + "\"" + x == "\"" + x;
    }
  }

  /** A quoted element without quotes or backslashes inside comes back
      without its quotes. */
  lemma QuotedElement(body: string)
    requires forall k :: 0 <= k < |body| ==> body[k] != '"' && body[k] != '\\'
    ensures ParseArrayOf("{\"" + body + "\"}") == [body]
  {
    var s := "{\"" + body + "\"}";
    var t := s[1..];
    assert t == "\"" + body + "\"}";
    assert t[1..] == body + "\"" + "}";
    QuotedLenOfBody(body, "}");
    var q := |body| + 2;
    assert t[..q] == "\"" + body + "\"";
    assert t[q..] == "}";
    assert Matches(t) == ["\"" + body + "\""] + Matches("}");
    assert Matches(s) == Matches(t);
    TrimQuotesQuoted(body);
  }

  /** Since every trailing quote is trimmed, an element ending in an escaped
      quote loses that quote: `{"a\""}` gives `a\`. */
  lemma EscapedQuoteAtEndIsLost()
    ensures ParseArrayOf("{\"a\\\"\"}") == ["a\\"]
  {
    EscapedQuoteMatch();
    EscapedQuoteTrim();
  }

  lemma EscapedQuoteMatch()
    ensures Matches("{\"a\\\"\"}") == ["\"a\\\"\""]
  {
    var t := "\"a\\\"\"}";
    assert QuotedLen("\"}") == Some(0);
    assert "\\\"\"}"[2..] == "\"}";
    assert QuotedLen("\\\"\"}") == Some(2);
    assert "a\\\"\"}"[1..] == "\\\"\"}";
    assert QuotedLen("a\\\"\"}") == Some(3);
    assert t[1..] == "a\\\"\"}";
    assert t[..5] == "\"a\\\"\"" && t[5..] == "}";
    assert Matches("}") == [];
    assert Matches(t) == ["\"a\\\"\""];
    assert Matches("{\"a\\\"\"}") == Matches(t);
  }

  lemma EscapedQuoteTrim()
    ensures TrimAll(["\"a\\\"\""]) == ["a\\"]
  {
    var m := "\"a\\\"\"";
    assert m[1..] == "a\\\"\"";
    assert DropLeadingQuotes(m[1..]) == m[1..];
    assert DropLeadingQuotes(m) == m[1..];
    var r := "a\\\"\"";
    assert r[..3] == "a\\\"";
    assert r[..3][..2] == "a\\";
    assert DropTrailingQuotes("a\\") == "a\\";
    assert DropTrailingQuotes(r[..3]) == "a\\";
    assert DropTrailingQuotes(r) == "a\\";
    assert TrimQuotes(m) == "a\\";
    var ms: seq<string> := [m];
    assert ms[..0] == [];
  }

  // ---- Array_Scan and Array_Value (array.go:348-373) ----

  /** A destination for Array_Scan and a value for Array_Value: nil, a
      value with the Elemented methods, or anything else. An Elemented
      value carries what its Elem2Strings returns. */
  datatype Target = TargetNil | Elemented(strings: seq<string>) | TargetOther

  /** Array_Scan: the strings handed to Strings2Elem, if any. What
      Strings2Elem itself does with them is the destination's own. */
  function ArrayScan(src: Source, dest: Target): (r: Result<Option<seq<string>>>)
    ensures src.SrcNil? || dest.TargetNil? ==> r == Ok(None)
    ensures !src.SrcNil? && !dest.TargetNil? && !src.SrcBytes? ==> r == Error("Scan source was not []bytes.")
    ensures src.SrcBytes? && dest.Elemented? ==> r == Ok(Some(ParseArrayOf(src.bytes)))
    ensures src.SrcBytes? && dest.TargetOther? ==> r == Error("Elemented should be implemented.")
  {
    if src.SrcNil? || dest.TargetNil? then Ok(None)
    else if !src.SrcBytes? then Error("Scan source was not []bytes.")
    else
      var parsed := ParseArrayOf(src.bytes);
      if dest.Elemented? then Ok(Some(parsed)) else Error("Elemented should be implemented.")
  }

  /** Array_Value: nil for nil, the braced comma-joined strings for an
      Elemented value, an error otherwise. */
  function ArrayValue(v: Target): (r: Result<Option<string>>)
    ensures v.TargetNil? ==> r == Ok(None)
    ensures v.Elemented? ==> r == Ok(Some("{" + Join(v.strings, ",") + "}"))
    ensures v.TargetOther? ==> r == Error("Elemented should be implemented.")
  {
    match v
    case TargetNil => Ok(None)
    case Elemented(ss) => Ok(Some("{" + Join(ss, ",") + "}"))
    case TargetOther => Error("Elemented should be implemented.")
  }

  /** Written by Array_Value and read back by Array_Scan, plain strings
      reach the destination unchanged. */
  lemma ArrayRoundTrip(strs: seq<string>)
    requires forall i :: 0 <= i < |strs| ==> Plain(strs[i])
    ensures ArrayValue(Elemented(strs)).Ok? && ArrayValue(Elemented(strs)).value.Some?
    ensures ArrayScan(SrcBytes(ArrayValue(Elemented(strs)).value.value), Elemented([])) == Ok(Some(strs))
  {
    ParsePlainElements(strs);
  }

  /** StringArray of field-types.go:126-137: Scan replaces the elements with
      the parsed ones, and refuses anything that is not a byte slice,
      NULL included. */
  class StringArrayCell {
    var items: seq<string>

    constructor(items: seq<string>)
      ensures this.items == items
    {
      this.items := items;
    }

    method Scan(src: Source) returns (err: Option<string>)
      modifies this
      ensures !src.SrcBytes? ==> err == Some("Scan source was not []bytes") && items == old(items)
      ensures src.SrcBytes? ==> err == None && items == ParseArrayOf(src.bytes)
    {
      if !src.SrcBytes? {
        return Some("Scan source was not []bytes");
      }
      var parsed := ParseArray(src.bytes);
      items := parsed;
      return None;
    }
  }
}
