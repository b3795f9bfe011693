/** The parts of Go's `strings` and `strconv` packages that the model relies on,
    written out so that their behaviour is explicit. Text is a sequence of
    characters; only ASCII case mapping is modelled. */
module Strings {

  /** strings.Join: the parts separated by `sep`; "" for no parts. */
  function Join(parts: seq<string>, sep: string): string
  {
    if |parts| == 0 then ""
    else if |parts| == 1 then parts[0]
    else parts[0] + sep + Join(parts[1..], sep)
  }

  /** Appending one part to a joined list. */
  lemma {:induction false} JoinSnoc(parts: seq<string>, x: string, sep: string)
    ensures Join(parts + [x], sep) == if parts == [] then x else Join(parts, sep) + sep + x
  {
    if |parts| > 1 {
      assert (parts + [x])[1..] == parts[1..] + [x];
      JoinSnoc(parts[1..], x, sep);
    } else if |parts| == 1 {
      assert (parts + [x])[1..] == [x];
    }
  }

  /** A non-empty sequence is its front followed by its last element. */
  lemma FrontLast<T>(r: seq<T>)
    requires |r| >= 1
    ensures r[..|r| - 1] + [r[|r| - 1]] == r
  {
  }

  /** Plain concatenation of all parts. */
  function Concat(parts: seq<string>): string
  {
    if parts == [] then "" else Concat(parts[..|parts| - 1]) + parts[|parts| - 1]
  }

  lemma ConcatSnoc(parts: seq<string>, x: string)
    ensures Concat(parts + [x]) == Concat(parts) + x
  {
    assert (parts + [x])[..|parts|] == parts;
  }

  /** Position of the first occurrence of `c` in `s`. */
  function IndexOf(s: string, c: char): (i: nat)
    requires c in s
    ensures i < |s| && s[i] == c && c !in s[..i]
  {
    if s[0] == c then 0 else 1 + IndexOf(s[1..], c)
  }

  /** The first occurrence is the only position that is preceded by no other. */
  lemma {:induction false} IndexOfUnique(s: string, c: char, i: nat)
    requires i < |s| && s[i] == c && c !in s[..i]
    ensures IndexOf(s, c) == i
  {
    if i > 0 {
      assert s[0] in s[..i];
      assert s[1..][..i - 1] == s[..i][1..];
      IndexOfUnique(s[1..], c, i - 1);
    }
  }

  /** strings.Split with a one-character separator, read one character at a
      time: a separator opens a new piece, any other character extends the
      last one. Never empty, and "" gives [""]. */
  function Split(s: string, sep: char): (r: seq<string>)
    ensures |r| >= 1
  {
    if s == [] then [""]
    else
      var r := Split(s[..|s| - 1], sep);
      var c := s[|s| - 1];
      if c == sep then r + [""] else Extend(r, c)
  }

  /** The pieces with `c` added to the last one. */
  function Extend(r: seq<string>, c: char): (r': seq<string>)
    requires |r| >= 1
    ensures |r'| == |r| && r'[..|r| - 1] == r[..|r| - 1] && r'[|r| - 1] == r[|r| - 1] + [c]
  {
    r[..|r| - 1] + [r[|r| - 1] + [c]]
  }

  /** Extending a concatenation extends its second part. */
  lemma ExtendAppend(x: seq<string>, y: seq<string>, c: char)
    requires |y| >= 1
    ensures Extend(x + y, c) == x + Extend(y, c)
  {
    assert (x + y)[..|x + y| - 1] == x + y[..|y| - 1];
  }

  /** Appending the separator opens a new, empty last piece. */
  lemma SplitSnocSep(s: string, sep: char)
    ensures Split(s + [sep], sep) == Split(s, sep) + [""]
  {
    assert (s + [sep])[..|s|] == s;
  }

  /** Appending any other character extends the last piece. */
  lemma SplitSnocOther(s: string, c: char, sep: char)
    requires c != sep
    ensures Split(s + [c], sep) == Extend(Split(s, sep), c)
  {
    assert (s + [c])[..|s|] == s;
  }

  /** No piece of a split contains the separator. */
  lemma {:induction false} SplitPiecesLackSep(s: string, sep: char)
    ensures forall k :: 0 <= k < |Split(s, sep)| ==> sep !in Split(s, sep)[k]
  {
    if s != [] {
      var init, c := s[..|s| - 1], s[|s| - 1];
      SplitPiecesLackSep(init, sep);
      var r := Split(init, sep);
      if c != sep {
        assert sep !in r[|r| - 1] + [c];
      }
    }
  }

  /** Joining the pieces of a split with the separator gives back the text. */
  lemma {:induction false} JoinSplit(s: string, sep: char)
    ensures Join(Split(s, sep), [sep]) == s
  {
    if s != [] {
      var init, c := s[..|s| - 1], s[|s| - 1];
      assert s == init + [c];
      JoinSplit(init, sep);
      if c == sep {
        JoinSplitSep(init, sep);
      } else {
        JoinSplitOther(init, c, sep);
      }
    }
  }

  lemma JoinSplitSep(init: string, sep: char)
    requires Join(Split(init, sep), [sep]) == init
    ensures Join(Split(init + [sep], sep), [sep]) == init + [sep]
  {
    SplitSnocSep(init, sep);
    JoinSnoc(Split(init, sep), "", [sep]);
  }

  lemma JoinSplitOther(init: string, c: char, sep: char)
    requires c != sep && Join(Split(init, sep), [sep]) == init
    ensures Join(Split(init + [c], sep), [sep]) == init + [c]
  {
    var r := Split(init, sep);
    var front, last := r[..|r| - 1], r[|r| - 1];
    SplitSnocOther(init, c, sep);
    assert r == front + [last];
    JoinSnoc(front, last, [sep]);
    JoinSnoc(front, last + [c], [sep]);
  }

  /** Text without the separator is a single piece. */
  lemma {:induction false} SplitNoSep(s: string, sep: char)
    requires sep !in s
    ensures Split(s, sep) == [s]
  {
    if s != [] {
      var init, c := s[..|s| - 1], s[|s| - 1];
      assert s == init + [c];
      assert sep !in init by {
        forall k | 0 <= k < |init| ensures init[k] != sep {
          assert init[k] == s[k];
        }
      }
      SplitNoSep(init, sep);
      SplitSnocOther(init, c, sep);
    }
  }

  /** Splitting at one separator splits the two sides independently. */
  lemma {:induction false} SplitAround(a: string, sep: char, b: string)
    ensures Split(a + [sep] + b, sep) == Split(a, sep) + Split(b, sep)
  {
    if b == [] {
      assert a + [sep] + b == a + [sep];
      SplitSnocSep(a, sep);
    } else {
      var init, c := b[..|b| - 1], b[|b| - 1];
      var t := a + [sep] + init;
      var x, y := Split(a, sep), Split(init, sep);
      assert a + [sep] + b == t + [c];
      assert b == init + [c];
      assert Split(t, sep) == x + y by { SplitAround(a, sep, init); }
      if c == sep {
        assert Split(t + [c], sep) == (x + y) + [""] by { SplitSnocSep(t, sep); }
        assert Split(init + [c], sep) == y + [""] by { SplitSnocSep(init, sep); }
      } else {
        assert Split(t + [c], sep) == Extend(x + y, c) by { SplitSnocOther(t, c, sep); }
        assert Split(init + [c], sep) == Extend(y, c) by { SplitSnocOther(init, c, sep); }
        ExtendAppend(x, y, c);
      }
    }
  }

  /** The first piece of a split is everything before the first separator. */
  /** Two separator-free pieces around one separator split back into the two. */
  lemma SplitTwo(a: string, sep: char, b: string)
    requires sep !in a && sep !in b
    ensures Split(a + [sep] + b, sep) == [a, b]
  {
    SplitFirst(a, sep, b);
    SplitNoSep(b, sep);
    assert [a] + [b] == [a, b];
  }

  lemma SplitFirst(a: string, sep: char, b: string)
    requires sep !in a
    ensures Split(a + [sep] + b, sep) == [a] + Split(b, sep)
  {
    SplitAround(a, sep, b);
    SplitNoSep(a, sep);
  }

  predicate IsDigit(c: char) { '0' <= c <= '9' }

  predicate AllDigits(s: string) { forall k :: 0 <= k < |s| ==> IsDigit(s[k]) }

  function DigitChar(d: nat): (c: char)
    requires d < 10
    ensures IsDigit(c)
  {
    "0123456789"[d]
  }

  function DigitValue(c: char): (d: nat)
    requires IsDigit(c)
    ensures d < 10
  {
    (c as int - '0' as int) as nat
  }

  /** Decimal rendering of a natural number, as fmt's %d prints it. */
  function NatToString(n: nat): (r: string)
    ensures |r| >= 1 && AllDigits(r)
  {
    if n < 10 then [DigitChar(n)] else NatToString(n / 10) + [DigitChar(n % 10)]
  }

  /** Decimal rendering of an integer, with a leading '-' when negative. */
  function IntToString(i: int): (r: string)
  {
    if i < 0 then "-" + NatToString(-i) else NatToString(i)
  }

  /** The value of a string of decimal digits. */
  function DigitsValue(s: string): nat
    requires AllDigits(s)
  {
    if s == [] then 0 else 10 * DigitsValue(s[..|s| - 1]) + DigitValue(s[|s| - 1])
  }

  /** Reading back a rendered number gives the number. */
  lemma {:induction false} DigitsValueOfNat(n: nat)
    ensures DigitsValue(NatToString(n)) == n
  {
    var r := NatToString(n);
    if n < 10 {
      assert r[..0] == [];
    } else {
      assert r[..|r| - 1] == NatToString(n / 10);
      DigitsValueOfNat(n / 10);
    }
  }

  predicate IsUpperAscii(c: char) { 'A' <= c <= 'Z' }

  function LowerAscii(c: char): (l: char)
    ensures !IsUpperAscii(l)
  {
    if IsUpperAscii(c) then (c as int + 32) as char else c
  }

  /** strings.ToLower, on ASCII letters. */
  function ToLower(s: string): (r: string)
    ensures |r| == |s|
    ensures forall k :: 0 <= k < |r| ==> r[k] == LowerAscii(s[k])
  {
    if s == [] then [] else [LowerAscii(s[0])] + ToLower(s[1..])
  }

  /** strings.HasPrefix. */
  predicate HasPrefix(s: string, prefix: string)
  {
    |prefix| <= |s| && s[..|prefix|] == prefix
  }

  /** A prefix of a prefix is a prefix. */
  lemma PrefixTrans(s: string, t: string, u: string)
    requires HasPrefix(s, t) && HasPrefix(t, u)
    ensures HasPrefix(s, u)
  {
    assert s[..|u|] == s[..|t|][..|u|];
  }

  /** One more element of a prefix. */
  lemma TakeSnoc<T>(xs: seq<T>, j: nat)
    requires j < |xs|
    ensures xs[..j + 1] == xs[..j] + [xs[j]]
  {
  }

  /** A string is a prefix of itself extended. */
  lemma PrefixOfAppend(s: string, y: string)
    ensures HasPrefix(s + y, s)
  {
    assert (s + y)[..|s|] == s;
  }

  /** A common front keeps a prefix a prefix. */
  lemma PrefixUnder(a: string, c: string, p: string)
    requires HasPrefix(c, p)
    ensures HasPrefix(a + c, a + p)
  {
    assert (a + c)[..|a + p|] == a + c[..|p|];
  }

  /** strings.TrimLeft: drop every leading character that is in the cut set. */
  function TrimLeftSet(s: string, cut: set<char>): (r: string)
    ensures |r| <= |s| && r == s[|s| - |r|..]
    ensures r == [] || r[0] !in cut
    ensures forall k :: 0 <= k < |s| - |r| ==> s[k] in cut
  {
    if s != [] && s[0] in cut then
      var r := TrimLeftSet(s[1..], cut);
      assert forall k :: 1 <= k < |s| - |r| ==> s[k] == s[1..][k - 1];
      r
    else s
  }

  /** TrimLeft stops at the first character outside the cut set. */
  lemma {:induction false} TrimLeftSetExact(s: string, cut: set<char>, n: nat)
    requires n <= |s| && (n == |s| || s[n] !in cut)
    requires forall k :: 0 <= k < n ==> s[k] in cut
    ensures TrimLeftSet(s, cut) == s[n..]
    decreases n
  {
    if n > 0 {
      TrimLeftSetExact(s[1..], cut, n - 1);
      assert s[1..][n - 1..] == s[n..];
    }
  }

  /** strings.TrimRight: drop every trailing character that is in the cut set. */
  function TrimRightSet(s: string, cut: set<char>): (r: string)
    ensures |r| <= |s| && r == s[..|r|]
    ensures r == [] || r[|r| - 1] !in cut
    ensures forall k :: |r| <= k < |s| ==> s[k] in cut
  {
    if s != [] && s[|s| - 1] in cut then TrimRightSet(s[..|s| - 1], cut) else s
  }

  /** strings.Trim: both ends. */
  function TrimSet(s: string, cut: set<char>): string
  {
    TrimRightSet(TrimLeftSet(s, cut), cut)
  }

  /** strings.Replace(s, [c], rep, -1) for a one-character pattern. */
  function ReplaceChar(s: string, c: char, rep: string): string
  {
    if s == [] then []
    else (if s[0] == c then rep else [s[0]]) + ReplaceChar(s[1..], c, rep)
  }
}
