/** The annotation parser of tags.go: splitting a field annotation such as
    `size=24,check=(age>18),fk=schools.id` into tokens, turning the tokens into
    a property set, and the typed lookups over that set. */
module Tags {
  import opened Wrappers
  import opened Strings
  import Assoc

  /** tags.go:8. A nil set behaves as an empty one for every read, and deleting
      from it does nothing, so the model does not tell the two apart. */
  type PropertySet = map<string, string>

  // The bits of the `opened` mask (tags.go:10-16). Only these five bits are
  // ever set, so an 8-bit vector holds the Go `uint` mask exactly.
  const SingleQuoteOpened: bv8 := 0x01
  const DoubleQuoteOpened: bv8 := 0x02
  const SBraceOpened: bv8 := 0x04
  const MBraceOpened: bv8 := 0x08
  const BBraceOpened: bv8 := 0x10

  /** The loop variables of ParseDottedArgs after some prefix of the input. */
  datatype Scan = Scan(mask: bv8, chars: string, ret: seq<string>)

  const Start := Scan(0, "", [])

  /** How one rune changes the mask: quotes toggle their bit, an opening
      bracket sets its bit and a closing one clears it, without any count of
      depth (tags.go:23-46). */
  function MaskAfter(m: bv8, c: char): bv8
  {
    if c == '\'' then m ^ SingleQuoteOpened
    else if c == '"' then m ^ DoubleQuoteOpened
    else if c == '(' then m | SBraceOpened
    else if c == ')' then m & !SBraceOpened
    else if c == '{' then m | BBraceOpened
    else if c == '}' then m & !BBraceOpened
    else if c == '[' then m | MBraceOpened
    else if c == ']' then m & !MBraceOpened
    else m
  }

  /** One iteration of the rune loop of tags.go:21-58. Every rune but a comma
      is collected; a comma drops the collected runes whether or not they were
      emitted as a token. */
  function Step(st: Scan, c: char): Scan
  {
    if c == ',' then
      Scan(st.mask, "", if st.mask == 0 && |st.chars| > 0 then st.ret + [st.chars] else st.ret)
    else
      Scan(MaskAfter(st.mask, c), st.chars + [c], st.ret)
  }

  /** The loop state after scanning `s` from the start. */
  function ScanOf(s: string): Scan
  {
    if s == [] then Start else Step(ScanOf(s[..|s| - 1]), s[|s| - 1])
  }

  /** tags.go:59-61: trailing characters become the last token. */
  function Finish(st: Scan): seq<string>
  {
    if |st.chars| > 0 then st.ret + [st.chars] else st.ret
  }

  /** The tokens ParseDottedArgs returns for `s`. */
  function DottedArgs(s: string): seq<string>
  {
    Finish(ScanOf(s))
  }

  /** tags.go:18-63. */
  method ParseDottedArgs(s: string) returns (ret: seq<string>)
    ensures ret == DottedArgs(s)
  {
    var mask: bv8 := 0;
    var chars: string := [];
    ret := [];
    var i := 0;
    while i < |s|
      invariant 0 <= i <= |s|
      invariant Scan(mask, chars, ret) == ScanOf(s[..i])
    {
      var c := s[i];
      assert s[..i + 1][..i] == s[..i];
      if c == ',' {
        if mask == 0 && |chars| > 0 {
          ret := ret + [chars];
        }
        chars := [];
      } else {
        match c {
          case '\'' => mask := mask ^ SingleQuoteOpened;
          case '"' => mask := mask ^ DoubleQuoteOpened;
          case '(' => mask := mask | SBraceOpened;
          case ')' => mask := mask & !SBraceOpened;
          case '{' => mask := mask | BBraceOpened;
          case '}' => mask := mask & !BBraceOpened;
          case '[' => mask := mask | MBraceOpened;
          case ']' => mask := mask & !MBraceOpened;
          case _ =>
        }
        chars := chars + [c];
      }
      i := i + 1;
    }
    assert s[..|s|] == s;
    if |chars| > 0 {
      ret := ret + [chars];
    }
  }

  predicate GoodToken(t: string) { t != "" && ',' !in t }

  /** Every token is non-empty and holds no comma. */
  lemma {:induction false} ScanTokensGood(s: string)
    ensures ',' !in ScanOf(s).chars
    ensures forall k :: 0 <= k < |ScanOf(s).ret| ==> GoodToken(ScanOf(s).ret[k])
  {
    if s != [] {
      ScanTokensGood(s[..|s| - 1]);
    }
  }

  lemma DottedArgsTokensGood(s: string)
    ensures forall k :: 0 <= k < |DottedArgs(s)| ==> GoodToken(DottedArgs(s)[k])
  {
    ScanTokensGood(s);
  }

  predicate IsDelimiter(c: char) { c in {'\'', '"', '(', ')', '{', '}', '[', ']'} }

  /** The non-empty pieces, in order. */
  function NonEmpty(xs: seq<string>): (r: seq<string>)
    ensures forall k :: 0 <= k < |r| ==> r[k] != ""
  {
    if xs == [] then []
    else NonEmpty(xs[..|xs| - 1]) + (if xs[|xs| - 1] == "" then [] else [xs[|xs| - 1]])
  }

  /** Every non-empty piece is kept, as often as it occurs, and only those. */
  lemma {:induction false} NonEmptyCounts(xs: seq<string>)
    ensures multiset(NonEmpty(xs)) == multiset(xs)["" := 0]
    ensures |NonEmpty(xs)| == |xs| - multiset(xs)[""]
  {
    if xs != [] {
      NonEmptyCounts(xs[..|xs| - 1]);
      assert xs == xs[..|xs| - 1] + [xs[|xs| - 1]];
    }
  }

  lemma NonEmptySnoc(xs: seq<string>, x: string)
    ensures NonEmpty(xs + [x]) == NonEmpty(xs) + (if x == "" then [] else [x])
  {
    assert (xs + [x])[..|xs|] == xs;
  }

  /** Without quotes or brackets the scan is a plain split on commas. */
  lemma {:induction false} ScanPlain(s: string)
    requires forall k :: 0 <= k < |s| ==> !IsDelimiter(s[k])
    ensures var r := Split(s, ',');
      ScanOf(s).mask == 0 && ScanOf(s).chars == r[|r| - 1] && ScanOf(s).ret == NonEmpty(r[..|r| - 1])
  {
    if s != [] {
      var init, c := s[..|s| - 1], s[|s| - 1];
      ScanPlain(init);
      assert s == init + [c];
      if c == ',' {
        SplitSnocSep(init, ',');
      } else {
        SplitSnocOther(init, c, ',');
      }
      ScanPlainStep(ScanOf(init), Split(init, ','), c);
    }
  }

  /** One more character of a plain annotation: a comma closes the pending
      piece, any other character extends it. */
  lemma ScanPlainStep(st: Scan, r: seq<string>, c: char)
    requires |r| >= 1 && !IsDelimiter(c)
    requires st.mask == 0 && st.chars == r[|r| - 1] && st.ret == NonEmpty(r[..|r| - 1])
    ensures var r' := if c == ',' then r + [""] else Extend(r, c);
      Step(st, c).mask == 0 && Step(st, c).chars == r'[|r'| - 1] && Step(st, c).ret == NonEmpty(r'[..|r'| - 1])
  {
    if c == ',' {
      NonEmptySnoc(r[..|r| - 1], r[|r| - 1]);
      FrontLast(r);
      assert (r + [""])[..|r|] == r;
    }
  }

  /** When the annotation holds no quotes or brackets, the tokens are exactly the
      non-empty comma-separated pieces (tags.go:47-51, 59-61). */
  lemma DottedArgsPlain(s: string)
    requires forall k :: 0 <= k < |s| ==> !IsDelimiter(s[k])
    ensures DottedArgs(s) == NonEmpty(Split(s, ','))
  {
    var r := Split(s, ',');
    ScanPlain(s);
    FinishNonEmpty(ScanOf(s), r[..|r| - 1], r[|r| - 1]);
    FrontLast(r);
  }

  lemma FinishNonEmpty(st: Scan, front: seq<string>, last: string)
    requires st.ret == NonEmpty(front) && st.chars == last
    ensures Finish(st) == NonEmpty(front + [last])
  {
    NonEmptySnoc(front, last);
  }

  /** Brackets set and clear one flag each, without counting depth: the comma
      after the inner `)` of `((a),b)` already separates (tags.go:29-34). */
  lemma BracesDoNotNest()
    ensures DottedArgs("((a),b)") == ["((a)", "b)"]
  {
    var s := "((a),b)";
    assert ScanOf(s) == Scan(0, "b)", ["((a)"]) by {
      assert ScanOf(s[..6]) == Scan(0, "b", ["((a)"]) by {
        assert ScanOf(s[..5]) == Scan(0, "", ["((a)"]) by {
          assert ScanOf(s[..4]) == Scan(0, "((a)", []) by {
            assert ScanOf(s[..3]) == Scan(SBraceOpened, "((a", []) by {
              assert ScanOf(s[..2]) == Scan(SBraceOpened, "((", []) by {
                assert ScanOf(s[..1]) == Scan(SBraceOpened, "(", []) by { assert s[..1][..0] == []; }
                assert s[..2][..1] == s[..1];
              }
              assert s[..3][..2] == s[..2];
            }
            assert s[..4][..3] == s[..3];
          }
          assert s[..5][..4] == s[..4];
        }
        assert s[..6][..5] == s[..5];
      }
      assert s[..6] == s[..|s| - 1];
    }
  }

  /** A comma inside quotes throws away what was collected before it
      (tags.go:47-51): only the text after it survives. */
  lemma QuotedCommaDiscards()
    ensures DottedArgs("a'b,c'd") == ["c'd"]
  {
    var s := "a'b,c'd";
    assert ScanOf(s) == Scan(0, "c'd", []) by {
      assert ScanOf(s[..6]) == Scan(0, "c'", []) by {
        assert ScanOf(s[..5]) == Scan(SingleQuoteOpened, "c", []) by {
          assert ScanOf(s[..4]) == Scan(SingleQuoteOpened, "", []) by {
            assert ScanOf(s[..3]) == Scan(SingleQuoteOpened, "a'b", []) by {
              assert ScanOf(s[..2]) == Scan(SingleQuoteOpened, "a'", []) by {
                assert ScanOf(s[..1]) == Scan(0, "a", []) by { assert s[..1][..0] == []; }
                assert s[..2][..1] == s[..1];
              }
              assert s[..3][..2] == s[..2];
            }
            assert s[..4][..3] == s[..3];
          }
          assert s[..5][..4] == s[..4];
        }
        assert s[..6][..5] == s[..5];
      }
      assert s[..6] == s[..|s| - 1];
    }
  }

  /** strings.SplitN(token, "=", 2) read as a key and a value; a bare key
      stands for "t" (tags.go:74-79). */
  function KeyValue(token: string): (kv: (string, string))
    ensures '=' !in kv.0
    ensures '=' in token ==> kv.0 + "=" + kv.1 == token
    ensures '=' !in token ==> kv == (token, "t")
  {
    if '=' in token then
      var i := IndexOf(token, '=');
      assert token == token[..i] + "=" + token[i + 1..];
      (token[..i], token[i + 1..])
    else (token, "t")
  }

  function Pairs(tokens: seq<string>): (ps: seq<(string, string)>)
    ensures |ps| == |tokens|
    ensures forall k :: 0 <= k < |ps| ==> ps[k] == KeyValue(tokens[k])
  {
    if tokens == [] then [] else Pairs(tokens[..|tokens| - 1]) + [KeyValue(tokens[|tokens| - 1])]
  }

  /** The property set ParseProperties returns for `s`. */
  function Properties(s: string): PropertySet
  {
    if s == "" then map[] else Assoc.FromPairs(Pairs(DottedArgs(s)))
  }

  /** tags.go:65-83. The Go function also returns an error, which is always nil. */
  method ParseProperties(s: string) returns (p: PropertySet, err: Option<string>)
    ensures p == Properties(s) && err == None
  {
    p := map[];
    err := None;
    if s == "" {
      return;
    }
    var tokens := ParseDottedArgs(s);
    DottedArgsTokensGood(s);
    var i := 0;
    while i < |tokens|
      invariant 0 <= i <= |tokens|
      invariant p == Assoc.FromPairs(Pairs(tokens[..i]))
    {
      var ss := tokens[i];
      PropertiesStep(tokens, i);
      if ss == "" {
        // Never taken: ParseDottedArgs emits no empty token.
        assert false;
      }
      var kv := KeyValue(ss);
      p := p[kv.0 := kv.1];
      i := i + 1;
    }
    assert tokens[..|tokens|] == tokens;
  }

  /** One more token stores its key and value over the earlier ones. */
  lemma PropertiesStep(tokens: seq<string>, i: nat)
    requires i < |tokens|
    ensures Assoc.FromPairs(Pairs(tokens[..i + 1])) ==
      Assoc.FromPairs(Pairs(tokens[..i]))[KeyValue(tokens[i]).0 := KeyValue(tokens[i]).1]
  {
    assert tokens[..i + 1][..i] == tokens[..i];
  }

  /** What ParseProperties promises: a key is present iff some token carries
      it, and it maps to the value of the LAST such token. */
  lemma {:induction false} PropertiesMeaning(s: string, i: nat)
    requires s != "" && i < |DottedArgs(s)|
    requires forall j :: i < j < |DottedArgs(s)| ==> KeyValue(DottedArgs(s)[j]).0 != KeyValue(DottedArgs(s)[i]).0
    ensures var kv := KeyValue(DottedArgs(s)[i]); kv.0 in Properties(s) && Properties(s)[kv.0] == kv.1
  {
    Assoc.FromPairsLastWins(Pairs(DottedArgs(s)), i);
  }

  lemma PropertiesKeys(s: string, k: string)
    ensures k in Properties(s) <==> exists i :: 0 <= i < |DottedArgs(s)| && KeyValue(DottedArgs(s)[i]).0 == k
  {
    if s != "" {
      Assoc.FromPairsKeys(Pairs(DottedArgs(s)), k);
    }
  }

  /** A bare key is recorded as present with the value "t". */
  lemma BareKeyIsTrue()
    ensures Properties("pk") == map["pk" := "t"]
  {
    SingleWord("pk");
  }

  /** An annotation of one word with no comma, quote, bracket or `=` is one
      bare key. */
  lemma SingleWord(s: string)
    requires s != "" && ',' !in s && '=' !in s
    requires forall k :: 0 <= k < |s| ==> !IsDelimiter(s[k])
    ensures Properties(s) == map[s := "t"]
  {
    var t := DottedArgs(s);
    assert t == [s] by {
      DottedArgsPlain(s);
      SplitNoSep(s, ',');
      NonEmptySnoc([], s);
    }
    assert KeyValue(s) == (s, "t");
    assert Pairs(t) == [(s, "t")] by { assert t[..0] == []; }
    assert Assoc.FromPairs([(s, "t")]) == map[s := "t"] by { assert [(s, "t")][..0] == []; }
  }

  // ---- strconv, as the typed accessors use it ----

  const TwoTo31: int := 0x8000_0000
  const TwoTo32: int := 0x1_0000_0000

  /** strconv.ParseUint(s, 10, 32): digits only, at least one, below 2^32. */
  function ParseUint32(s: string): (r: Option<nat>)
    ensures r.Some? ==> r.value < TwoTo32
  {
    if s != "" && AllDigits(s) && DigitsValue(s) < TwoTo32 then Some(DigitsValue(s)) else None
  }

  /** strconv.ParseInt(s, 10, 32): an optional sign, at least one digit, and a
      value that fits in 32 bits. */
  function ParseInt32(s: string): (r: Option<int>)
    ensures r.Some? ==> -TwoTo31 <= r.value < TwoTo31
  {
    if s == "" then None
    else
      var body := if s[0] == '-' || s[0] == '+' then s[1..] else s;
      if body == "" || !AllDigits(body) then None
      else
        var v: int := DigitsValue(body);
        if s[0] == '-' then (if v <= TwoTo31 then Some(-v) else None)
        else (if v < TwoTo31 then Some(v) else None)
  }

  /** Every 32-bit integer, printed in decimal, reads back as itself. */
  lemma ParseInt32OfPrinted(i: int)
    requires -TwoTo31 <= i < TwoTo31
    ensures ParseInt32(IntToString(i)) == Some(i)
  {
    var s := IntToString(i);
    if i < 0 {
      var n := NatToString(-i);
      assert s == "-" + n && s[0] == '-' && s[1..] == n;
      DigitsValueOfNat(-i);
    } else {
      var n := NatToString(i);
      assert s == n;
      assert IsDigit(n[0]);
      DigitsValueOfNat(i);
    }
  }

  lemma ParseUint32OfPrinted(n: nat)
    requires n < TwoTo32
    ensures ParseUint32(NatToString(n)) == Some(n)
  {
    DigitsValueOfNat(n);
  }

  /** A value ParseUint32 accepts is one ParseInt32 accepts too when it is
      below 2^31, with the same value. */
  lemma UintIsInt(s: string)
    requires ParseUint32(s).Some? && ParseUint32(s).value < TwoTo31
    ensures ParseInt32(s) == ParseUint32(s)
  {
  }

  // ---- typed lookups (tags.go:85-214) ----

  /** tags.go:85-91. */
  predicate HasKey(h: PropertySet, k: string) { k in h }

  function FirstOr<T>(defaults: seq<T>, zero: T): T
  {
    if |defaults| > 0 then defaults[0] else zero
  }

  /** tags.go:93-110: (value, true) when the key is present and its value is
      a base-10 32-bit integer, else (default, false). */
  function GetInt(h: PropertySet, k: string, defaults: seq<int>): (r: (int, bool))
    ensures r.1 <==> k in h && ParseInt32(h[k]).Some?
    ensures r.1 ==> r.0 == ParseInt32(h[k]).value && -TwoTo31 <= r.0 < TwoTo31
    ensures !r.1 ==> r.0 == FirstOr(defaults, 0)
  {
    if k in h && ParseInt32(h[k]).Some? then (ParseInt32(h[k]).value, true) else (FirstOr(defaults, 0), false)
  }

  /** tags.go:121-138: also parsed with a 32-bit limit, despite the 64-bit result. */
  function GetInt64(h: PropertySet, k: string, defaults: seq<int>): (r: (int, bool))
    ensures r.1 ==> -TwoTo31 <= r.0 < TwoTo31
    ensures r.1 <==> k in h && ParseInt32(h[k]).Some?
    ensures !r.1 ==> r.0 == FirstOr(defaults, 0)
  {
    GetInt(h, k, defaults)
  }

  /** tags.go:149-163. */
  function GetUInt(h: PropertySet, k: string, defaults: seq<nat>): (r: (nat, bool))
    ensures r.1 <==> k in h && ParseUint32(h[k]).Some?
    ensures r.1 ==> r.0 == ParseUint32(h[k]).value && r.0 < TwoTo32
    ensures !r.1 ==> r.0 == FirstOr(defaults, 0)
  {
    if k in h && ParseUint32(h[k]).Some? then (ParseUint32(h[k]).value, true) else (FirstOr(defaults, 0), false)
  }

  /** tags.go:174-186. */
  function GetString(h: PropertySet, k: string, defaults: seq<string>): (r: (string, bool))
    ensures r.1 <==> k in h
    ensures r.0 == if k in h then h[k] else FirstOr(defaults, "")
  {
    if k in h then (h[k], true) else (FirstOr(defaults, ""), false)
  }

  predicate IsTrueWord(w: string) { w in {"t", "true", "yes", "ok", "y"} }
  predicate IsFalseWord(w: string) { w in {"f", "false", "no", "n"} }

  /** tags.go:197-214: the value is compared case-insensitively with the
      true and false spellings; anything else is not found. */
  function GetBool(h: PropertySet, k: string, defaults: seq<bool>): (r: (bool, bool))
    ensures r.1 <==> k in h && (IsTrueWord(ToLower(h[k])) || IsFalseWord(ToLower(h[k])))
    ensures r.1 ==> (r.0 <==> IsTrueWord(ToLower(h[k])))
    ensures !r.1 ==> r.0 == FirstOr(defaults, false)
  {
    if k in h && IsTrueWord(ToLower(h[k])) then (true, true)
    else if k in h && IsFalseWord(ToLower(h[k])) then (false, true)
    else (FirstOr(defaults, false), false)
  }

  /** The spellings GetBool accepts never overlap. */
  lemma TrueAndFalseWordsDisjoint(w: string)
    ensures !(IsTrueWord(w) && IsFalseWord(w))
  {
  }

  /** A property set that the Pop* accessors consume in place (tags.go:112-223). */
  class PropertyBag {
    var entries: PropertySet

    constructor (entries: PropertySet)
      ensures this.entries == entries
    {
      this.entries := entries;
    }

    /** tags.go:112-119: the key is deleted only when GetInt succeeded. */
    method PopInt(k: string, defaults: seq<int>) returns (v: int, ok: bool)
      modifies this
      ensures (v, ok) == GetInt(old(entries), k, defaults)
      ensures entries == if ok then old(entries) - {k} else old(entries)
    {
      var r := GetInt(entries, k, defaults);
      v, ok := r.0, r.1;
      if ok {
        entries := entries - {k};
      }
    }

    /** tags.go:140-147. */
    method PopInt64(k: string, defaults: seq<int>) returns (v: int, ok: bool)
      modifies this
      ensures (v, ok) == GetInt64(old(entries), k, defaults)
      ensures entries == if ok then old(entries) - {k} else old(entries)
    {
      var r := GetInt64(entries, k, defaults);
      v, ok := r.0, r.1;
      if ok {
        entries := entries - {k};
      }
    }

    /** tags.go:165-172. */
    method PopUInt(k: string, defaults: seq<nat>) returns (v: nat, ok: bool)
      modifies this
      ensures (v, ok) == GetUInt(old(entries), k, defaults)
      ensures entries == if ok then old(entries) - {k} else old(entries)
    {
      var r := GetUInt(entries, k, defaults);
      v, ok := r.0, r.1;
      if ok {
        entries := entries - {k};
      }
    }

    /** tags.go:188-195. */
    method PopString(k: string, defaults: seq<string>) returns (v: string, ok: bool)
      modifies this
      ensures (v, ok) == GetString(old(entries), k, defaults)
      ensures entries == if ok then old(entries) - {k} else old(entries)
    {
      var r := GetString(entries, k, defaults);
      v, ok := r.0, r.1;
      if ok {
        entries := entries - {k};
      }
    }

    /** tags.go:216-223. */
    method PopBool(k: string, defaults: seq<bool>) returns (v: bool, ok: bool)
      modifies this
      ensures (v, ok) == GetBool(old(entries), k, defaults)
      ensures entries == if ok then old(entries) - {k} else old(entries)
    {
      var r := GetBool(entries, k, defaults);
      v, ok := r.0, r.1;
      if ok {
        entries := entries - {k};
      }
    }
  }
}
