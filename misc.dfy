/** The name and skip-list helpers of misc.go. */
module Misc {
  import opened Wrappers
  import opened Strings
  import Tags

  // ---- Camel2Underscore (misc.go:6-21) ----
  //
  // The source runs the pattern `(^[^A-Z]*|[A-Z]*)([A-Z][^A-Z]+|$)` through
  // FindAllStringSubmatch. The functions below spell out what that search
  // does under leftmost-first matching: at each position the alternatives are
  // tried in order and each star is greedy, backing off one character at a time.

  /** Length of the longest run of non-upper-case characters starting at p. */
  function LowerRun(s: string, p: nat): (n: nat)
    requires p <= |s|
    ensures p + n <= |s|
    ensures forall k :: p <= k < p + n ==> !IsUpperAscii(s[k])
    ensures p + n == |s| || IsUpperAscii(s[p + n])
    decreases |s| - p
  {
    if p < |s| && !IsUpperAscii(s[p]) then 1 + LowerRun(s, p + 1) else 0
  }

  /** Length of the longest run of upper-case letters starting at p. */
  function UpperRun(s: string, p: nat): (n: nat)
    requires p <= |s|
    ensures p + n <= |s|
    ensures forall k :: p <= k < p + n ==> IsUpperAscii(s[k])
    ensures p + n == |s| || !IsUpperAscii(s[p + n])
    decreases |s| - p
  {
    if p < |s| && IsUpperAscii(s[p]) then 1 + UpperRun(s, p + 1) else 0
  }

  /** One match of the pattern: where it ends, and its two submatches. */
  datatype CamelMatch = CamelMatch(end: nat, sub1: string, sub2: string)

  /** The match the pattern makes when it starts exactly at p, if any. */
  function MatchAt(s: string, p: nat): (m: Option<CamelMatch>)
    requires p <= |s|
    ensures m.Some? ==> p <= m.value.end <= |s|
  {
    var q := LowerRun(s, 0);
    if p == 0 && q < |s| && LowerRun(s, q + 1) >= 1 then
      // `^[^A-Z]*` then `[A-Z][^A-Z]+`
      var e := q + 1 + LowerRun(s, q + 1);
      Some(CamelMatch(e, s[..q], s[q..e]))
    else if p == 0 && q == |s| then
      // `^[^A-Z]*` then `$`
      Some(CamelMatch(|s|, s, ""))
    else
      var r := UpperRun(s, p);
      if p + r == |s| then
        // `[A-Z]*` then `$`
        Some(CamelMatch(|s|, s[p..], ""))
      else if r >= 1 then
        // `[A-Z]*` backs off one letter, which starts `[A-Z][^A-Z]+`
        var e := p + r + LowerRun(s, p + r);
        Some(CamelMatch(e, s[p..p + r - 1], s[p + r - 1..e]))
      else None
  }

  /** The pattern always matches (emptily) at the end of the text. */
  lemma MatchAtEnd(s: string)
    ensures MatchAt(s, |s|).Some? && MatchAt(s, |s|).value.end == |s|
  {
  }

  /** The leftmost position at or after `pos` where a match starts. */
  function Search(s: string, pos: nat): (p: nat)
    requires pos <= |s|
    ensures pos <= p <= |s| && MatchAt(s, p).Some?
    decreases |s| - pos
  {
    if MatchAt(s, pos).Some? then pos else (MatchAtEnd(s); Search(s, pos + 1))
  }

  /** The non-empty submatches of all successive matches from `pos` on, in
      order (misc.go:10-17). An empty match can only occur at the end of the
      text, where both submatches are empty, so it contributes nothing. */
  function Words(s: string, pos: nat): seq<string>
    requires pos <= |s|
    decreases |s| - pos
  {
    var p := Search(s, pos);
    var m := MatchAt(s, p).value;
    if m.end == p then []
    else
      (if m.sub1 != "" then [m.sub1] else []) + (if m.sub2 != "" then [m.sub2] else []) + Words(s, m.end)
  }

  /** misc.go:8-21. The result never holds an upper-case letter. */
  function Camel2Underscore(s: string): (r: string)
    ensures forall k :: 0 <= k < |r| ==> !IsUpperAscii(r[k])
  {
    ToLower(Join(Words(s, 0), "_"))
  }

  /** An upper-case letter followed by at least one other character, none of
      them upper case: one word of a CamelCase identifier. */
  predicate IsCamelWord(w: string)
  {
    |w| >= 2 && IsUpperAscii(w[0]) && forall k :: 1 <= k < |w| ==> !IsUpperAscii(w[k])
  }

  /** Concatenating words: the first word, then the rest. */
  lemma JoinWordsHead(ws: seq<string>)
    requires ws != []
    ensures Join(ws, "") == ws[0] + Join(ws[1..], "")
  {
    if |ws| > 1 {
      assert Join(ws, "") == ws[0] + "" + Join(ws[1..], "");
    }
  }

  /** A camel word found at `pos`, followed by the end or by an upper-case
      letter, is exactly the match made at `pos`. */
  lemma MatchWordAt(s: string, pos: nat, w: string)
    requires pos + |w| <= |s| && s[pos..pos + |w|] == w && IsCamelWord(w)
    requires pos + |w| == |s| || IsUpperAscii(s[pos + |w|])
    ensures MatchAt(s, pos) == Some(CamelMatch(pos + |w|, "", w))
  {
    var e := pos + |w|;
    assert s[pos] == w[0] && s[pos + 1] == w[1];
    forall k | pos + 1 <= k < e ensures !IsUpperAscii(s[k]) {
      assert s[k] == w[k - pos];
    }
    LowerRunExact(s, pos + 1, |w| - 1);
    if pos == 0 {
      assert LowerRun(s, 0) == 0;
      assert s[..0] == [] && s[0..e] == w;
    } else {
      assert UpperRun(s, pos + 1) == 0;
      assert UpperRun(s, pos) == 1;
      assert s[pos..pos + 1 - 1] == [] && s[pos + 1 - 1..e] == w;
    }
  }

  /** The first character of a non-empty tail of words. */
  lemma NextWordStart(s: string, e: nat, rest: seq<string>)
    requires e <= |s| && s[e..] == Join(rest, "")
    requires rest != [] ==> IsCamelWord(rest[0])
    ensures e == |s| || IsUpperAscii(s[e])
  {
    if rest != [] {
      JoinWordsHead(rest);
      assert s[e] == rest[0][0];
    }
  }

  /** Nothing is left to find at the end of the text. */
  lemma WordsAtEnd(s: string)
    ensures Words(s, |s|) == []
  {
    assert Search(s, |s|) == |s|;
  }

  /** A match at `pos` whose first submatch is empty contributes its second one. */
  lemma WordsStep(s: string, pos: nat, e: nat, w: string)
    requires pos < e <= |s| && w != ""
    requires MatchAt(s, pos) == Some(CamelMatch(e, "", w))
    ensures Words(s, pos) == [w] + Words(s, e)
  {
    assert Search(s, pos) == pos;
  }

  /** Every word of the list is a CamelCase word, stated word by word. */
  predicate CamelWords(ws: seq<string>)
  {
    ws == [] || (IsCamelWord(ws[0]) && CamelWords(ws[1..]))
  }

  lemma {:induction false} CamelWordsOfAll(ws: seq<string>)
    requires forall k :: 0 <= k < |ws| ==> IsCamelWord(ws[k])
    ensures CamelWords(ws)
  {
    if ws != [] {
      assert forall k :: 0 <= k < |ws[1..]| ==> IsCamelWord(ws[1..][k]) by {
        forall k | 0 <= k < |ws[1..]| ensures IsCamelWord(ws[1..][k]) {
          assert ws[1..][k] == ws[k + 1];
        }
      }
      CamelWordsOfAll(ws[1..]);
    }
  }

  /** From a word boundary on, each word of a CamelCase text is one match. */
  lemma {:induction false} WordsOfCamel(s: string, pos: nat, ws: seq<string>)
    requires pos <= |s|
    requires CamelWords(ws)
    requires s[pos..] == Join(ws, "")
    ensures Words(s, pos) == ws
    decreases |ws|
  {
    if ws == [] {
      assert |s[pos..]| == 0;
      WordsAtEnd(s);
    } else {
      var w, rest := ws[0], ws[1..];
      var e := pos + |w|;
      assert e <= |s| && s[e..] == Join(rest, "") && Words(s, pos) == [w] + Words(s, e) by {
        JoinWordsHead(ws);
        SliceSplit(s, pos, w, Join(rest, ""));
        NextWordStart(s, e, rest);
        MatchWordAt(s, pos, w);
        WordsStep(s, pos, e, w);
      }
      WordsOfCamel(s, e, rest);
      HeadTail(ws);
    }
  }

  lemma HeadTail(ws: seq<string>)
    requires ws != []
    ensures ws == [ws[0]] + ws[1..]
  {
  }

  /** A suffix that is a concatenation splits at the first part's end. */
  lemma SliceSplit(s: string, pos: nat, a: string, b: string)
    requires pos <= |s| && s[pos..] == a + b
    ensures pos + |a| <= |s| && s[pos..pos + |a|] == a && s[pos + |a|..] == b
  {
    assert s[pos..pos + |a|] == s[pos..][..|a|];
    assert s[pos + |a|..] == s[pos..][|a|..];
  }

  /** A run that is bounded by an upper-case letter or the end is the longest one. */
  lemma {:induction false} LowerRunExact(s: string, p: nat, n: nat)
    requires p + n <= |s|
    requires forall k :: p <= k < p + n ==> !IsUpperAscii(s[k])
    requires p + n == |s| || IsUpperAscii(s[p + n])
    ensures LowerRun(s, p) == n
    decreases n
  {
    if n > 0 {
      LowerRunExact(s, p + 1, n - 1);
    }
  }

  /** A CamelCase identifier becomes its words, lower-cased and joined with
      underscores (misc.go:8-21). */
  lemma Camel2UnderscoreOfWords(ws: seq<string>)
    requires forall k :: 0 <= k < |ws| ==> IsCamelWord(ws[k])
    ensures Camel2Underscore(Join(ws, "")) == ToLower(Join(ws, "_"))
  {
    CamelWordsOfAll(ws);
    WordsOfCamel(Join(ws, ""), 0, ws);
  }

  /** misc.go:8-21, on the identifier FullName. */
  lemma FullNameExample()
    ensures Camel2Underscore("FullName") == "full_name"
  {
    var ws := ["Full", "Name"];
    assert IsCamelWord("Full");
    assert IsCamelWord("Name");
    assert Join(ws, "") == "FullName" by {
      JoinWordsHead(ws);
      assert ws[1..] == ["Name"];
    }
    assert Join(ws, "_") == "Full_Name" by {
      assert ws[1..] == ["Name"];
    }
    Camel2UnderscoreOfWords(ws);
    LowerFullName();
  }

  lemma LowerFullName()
    ensures ToLower("Full_Name") == "full_name"
  {
    var t := ToLower("Full_Name");
    assert LowerAscii('F') == 'f' && LowerAscii('N') == 'n';
    assert t[0] == 'f' && t[1] == 'u' && t[2] == 'l' && t[3] == 'l' && t[4] == '_';
    assert t[5] == 'n' && t[6] == 'a' && t[7] == 'm' && t[8] == 'e';
  }

  /** A name without upper-case letters is kept as it is. */
  lemma Camel2UnderscoreLower(s: string)
    requires s != [] && forall k :: 0 <= k < |s| ==> !IsUpperAscii(s[k])
    ensures Camel2Underscore(s) == s
  {
    LowerRunExact(s, 0, |s|);
    assert MatchAt(s, 0) == Some(CamelMatch(|s|, s, ""));
    assert Search(s, |s|) == |s|;
    assert Words(s, 0) == [s];
  }

  // ---- inSlice (misc.go:24-31) ----

  method InSlice(a: string, ls: seq<string>) returns (found: bool)
    ensures found <==> a in ls
  {
    var i := 0;
    while i < |ls|
      invariant 0 <= i <= |ls|
      invariant a !in ls[..i]
    {
      if a == ls[i] {
        return true;
      }
      assert ls[..i + 1] == ls[..i] + [ls[i]];
      i := i + 1;
    }
    assert ls[..i] == ls;
    return false;
  }

  // ---- getSkips (misc.go:33-49) ----

  const SkipsPrefix := "skips:"

  /** strings.TrimLeft takes its second argument as a set of characters. */
  const SkipsCutset: set<char> := {'s', 'k', 'i', 'p', ':'}

  /** The names one `skips:` tag lists. */
  function SkipNames(tag: string): (names: seq<string>)
    ensures forall k :: 0 <= k < |names| ==> names[k] != "" && ';' !in names[k]
  {
    var body := TrimLeftSet(tag, SkipsCutset);
    SplitPiecesLackSep(body, ';');
    NonEmptyKeeps(Split(body, ';'));
    Tags.NonEmpty(Split(body, ';'))
  }

  lemma {:induction false} NonEmptyKeeps(xs: seq<string>)
    ensures forall k :: 0 <= k < |Tags.NonEmpty(xs)| ==> Tags.NonEmpty(xs)[k] in xs
  {
    if xs != [] {
      NonEmptyKeeps(xs[..|xs| - 1]);
    }
  }

  /** What getSkips returns: the names of the first tag that starts with
      `skips:`, or nothing. */
  function Skips(tags: seq<string>): seq<string>
  {
    if tags == [] then []
    else if HasPrefix(tags[0], SkipsPrefix) then SkipNames(tags[0])
    else Skips(tags[1..])
  }

  method GetSkips(tags: seq<string>) returns (skips: seq<string>)
    ensures skips == Skips(tags)
  {
    skips := [];
    if |tags| < 1 {
      return;
    }
    var i := 0;
    while i < |tags|
      invariant 0 <= i <= |tags|
      invariant Skips(tags) == Skips(tags[i..])
    {
      var tag := tags[i];
      SkipsAt(tags, i);
      if HasPrefix(tag, SkipsPrefix) {
        skips := SkipNamesOf(tag);
        return;
      }
      i := i + 1;
    }
  }

  /** The inner loop of getSkips: the non-empty `;`-separated names after
      the cutset is trimmed off. */
  method SkipNamesOf(tag: string) returns (skips: seq<string>)
    ensures skips == SkipNames(tag)
  {
    skips := [];
    var s := TrimLeftSet(tag, SkipsCutset);
    var parts := Split(s, ';');
    var j := 0;
    while j < |parts|
      invariant 0 <= j <= |parts|
      invariant skips == Tags.NonEmpty(parts[..j])
    {
      TakeSnoc(parts, j);
      Tags.NonEmptySnoc(parts[..j], parts[j]);
      if parts[j] != "" {
        skips := skips + [parts[j]];
      }
      j := j + 1;
    }
    assert parts[..j] == parts;
  }

  lemma SkipsAt(tags: seq<string>, i: nat)
    requires i < |tags|
    ensures Skips(tags[i..]) ==
      if HasPrefix(tags[i], SkipsPrefix) then SkipNames(tags[i]) else Skips(tags[i + 1..])
  {
    assert tags[i..][1..] == tags[i + 1..];
  }

  /** Only the first `skips:` tag is read. */
  lemma SkipsFirstTagWins(a: string, b: string)
    requires HasPrefix(a, SkipsPrefix) && HasPrefix(b, SkipsPrefix)
    ensures Skips([a, b]) == SkipNames(a)
  {
  }

  /** Without a `skips:` tag nothing is skipped. */
  lemma {:induction false} SkipsWithoutTag(tags: seq<string>)
    requires forall k :: 0 <= k < |tags| ==> !HasPrefix(tags[k], SkipsPrefix)
    ensures Skips(tags) == []
  {
    if tags != [] {
      SkipsWithoutTag(tags[1..]);
    }
  }

  /** The prefix is trimmed as a set of characters, so a first name that
      begins with one of s, k, i, p or ':' loses those letters too (misc.go:39). */
  lemma SkipsCutsetEatsName()
    ensures Skips(["skips:secret;pid"]) == ["ecret", "pid"]
  {
    var tag := "skips:secret;pid";
    assert HasPrefix(tag, SkipsPrefix) by { assert tag[..6] == SkipsPrefix; }
    TrimSecret();
    SplitSecret();
    NonEmptySecret();
    assert SkipNames(tag) == ["ecret", "pid"];
  }

  lemma NonEmptySecret()
    ensures Tags.NonEmpty(["ecret", "pid"]) == ["ecret", "pid"]
  {
    var parts := ["ecret", "pid"];
    assert parts[..1] == ["ecret"] && parts[..1][..0] == [];
  }

  lemma TrimSecret()
    ensures TrimLeftSet("skips:secret;pid", SkipsCutset) == "ecret;pid"
  {
    var tag := "skips:secret;pid";
    assert tag[7] == 'e' && tag[7..] == "ecret;pid";
    forall k | 0 <= k < 7 ensures tag[k] in SkipsCutset {
    }
    TrimLeftSetExact(tag, SkipsCutset, 7);
  }

  lemma SplitSecret()
    ensures Split("ecret;pid", ';') == ["ecret", "pid"]
  {
    SecretText();
    SplitTwo("ecret", ';', "pid");
  }

  lemma SecretText()
    ensures "ecret;pid" == "ecret" + [';'] + "pid"
  {
  }
}
