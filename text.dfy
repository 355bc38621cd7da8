/**
  String helpers with the meaning of the JavaScript string methods the
  system uses (`join`, `split` on one character, `includes`, `startsWith`,
  `trim`, number-to-text).  Strings are sequences of characters.
 */
module Text {

  /** `parts.join(sep)` */
  function Join(parts: seq<string>, sep: string): (r: string)
    ensures |parts| == 1 ==> r == parts[0]
  {
    if |parts| == 0 then ""
    else if |parts| == 1 then parts[0]
    else parts[0] + sep + Join(parts[1..], sep)
  }

  /** `s.startsWith(p)` */
  predicate StartsWith(s: string, p: string) {
    |p| <= |s| && s[..|p|] == p
  }

  /** `s.endsWith(p)` */
  predicate EndsWith(s: string, p: string) {
    |p| <= |s| && s[|s| - |p|..] == p
  }

  /** `s.includes(sub)` */
  predicate Contains(s: string, sub: string)
    decreases |s|
  {
    StartsWith(s, sub) || (|s| > 0 && Contains(s[1..], sub))
  }

  /** The number of occurrences of `c` in `s`. */
  function CountChar(s: string, c: char): nat {
    if |s| == 0 then 0 else (if s[0] == c then 1 else 0) + CountChar(s[1..], c)
  }

  lemma {:induction false} CountCharConcat(a: string, b: string, c: char)
    ensures CountChar(a + b, c) == CountChar(a, c) + CountChar(b, c)
  {
    if |a| == 0 {
      assert a + b == b;
    } else {
      assert (a + b)[1..] == a[1..] + b;
      CountCharConcat(a[1..], b, c);
    }
  }

  lemma {:induction false} CountCharAbsent(s: string, c: char)
    requires c !in s
    ensures CountChar(s, c) == 0
  {
    if |s| > 0 {
      CountCharAbsent(s[1..], c);
    }
  }

  /** Occurrences of `c` in `Join(parts, sep)` when the separator holds none. */
  lemma {:induction false} CountCharJoin(parts: seq<string>, sep: string, c: char)
    requires c !in sep
    ensures CountChar(Join(parts, sep), c) == SumCounts(parts, c)
  {
    if |parts| == 0 {
    } else if |parts| == 1 {
      assert parts[1..] == [];
    } else {
      CountCharJoin(parts[1..], sep, c);
      CountCharAbsent(sep, c);
      CountCharConcat(parts[0] + sep, Join(parts[1..], sep), c);
      CountCharConcat(parts[0], sep, c);
    }
  }

  /** The total number of occurrences of `c` over all of `parts`. */
  function SumCounts(parts: seq<string>, c: char): nat {
    if |parts| == 0 then 0 else CountChar(parts[0], c) + SumCounts(parts[1..], c)
  }

  lemma {:induction false} SumCountsConcat(a: seq<string>, b: seq<string>, c: char)
    ensures SumCounts(a + b, c) == SumCounts(a, c) + SumCounts(b, c)
  {
    if |a| == 0 {
      assert a + b == b;
    } else {
      assert (a + b)[1..] == a[1..] + b;
      SumCountsConcat(a[1..], b, c);
    }
  }

  /** Every part holds `c` exactly `k` times, so `n` parts hold it `n * k` times. */
  lemma {:induction false} SumCountsUniform(parts: seq<string>, c: char, k: nat)
    requires forall i :: 0 <= i < |parts| ==> CountChar(parts[i], c) == k
    ensures SumCounts(parts, c) == |parts| * k
  {
    if |parts| > 0 {
      SumCountsUniform(parts[1..], c, k);
    }
  }

  /** `s.split(c)` for a one-character separator: never an empty list. */
  function Split(s: string, c: char): (r: seq<string>)
    ensures |r| >= 1
  {
    if |s| == 0 then [""]
    else
      var rest := Split(s[1..], c);
      if s[0] == c then [""] + rest else [[s[0]] + rest[0]] + rest[1..]
  }

  /** No piece of a split holds the separator. */
  lemma {:induction false} SplitPiecesFree(s: string, c: char)
    ensures forall i :: 0 <= i < |Split(s, c)| ==> c !in Split(s, c)[i]
  {
    if |s| > 0 {
      SplitPiecesFree(s[1..], c);
    }
  }

  /** Joining the pieces with the separator gives back the text. */
  lemma {:induction false} SplitJoin(s: string, c: char)
    ensures Join(Split(s, c), [c]) == s
  {
    if |s| > 0 {
      SplitJoin(s[1..], c);
      var rest := Split(s[1..], c);
      if s[0] == c {
        assert Split(s, c) == [""] + rest;
        assert ([""] + rest)[1..] == rest;
      } else {
        var r := [[s[0]] + rest[0]] + rest[1..];
        assert Split(s, c) == r;
        if |rest| == 1 {
          assert rest == [rest[0]];
        } else {
          assert r[1..] == rest[1..];
          assert Join(rest, [c]) == rest[0] + [c] + Join(rest[1..], [c]);
        }
        assert s == [s[0]] + s[1..];
      }
    }
  }

  /** Splitting a text free of the separator gives the text alone. */
  lemma {:induction false} SplitAbsent(s: string, c: char)
    requires c !in s
    ensures Split(s, c) == [s]
  {
    if |s| > 0 {
      SplitAbsent(s[1..], c);
      assert [s[0]] + s[1..] == s;
    }
  }

  /** `s.split(c).pop()`: the text after the last `c`, or all of `s` when it has none. */
  function LastPiece(s: string, c: char): string {
    var parts := Split(s, c);
    parts[|parts| - 1]
  }

  /**
    The last piece is a suffix free of the separator, preceded by the
    separator whenever it is not the whole text.
   */
  lemma LastPieceShape(s: string, c: char)
    ensures var l := LastPiece(s, c);
      c !in l && |l| <= |s| && s[|s| - |l|..] == l
      && (|l| < |s| ==> s[|s| - |l| - 1] == c)
      && (c !in s ==> l == s)
  {
    SplitPiecesFree(s, c);
    LastPieceSuffix(s, c);
    if c !in s {
      SplitAbsent(s, c);
    }
  }

  /** A suffix of `s[1..]` is the same suffix of `s`. */
  lemma TailSuffix(s: string, n: nat)
    requires n < |s|
    ensures s[1..][|s| - 1 - n..] == s[|s| - n..]
    ensures n < |s| - 1 ==> s[1..][|s| - 2 - n] == s[|s| - n - 1]
  {
  }

  lemma {:induction false} LastPieceSuffix(s: string, c: char)
    ensures var l := LastPiece(s, c);
      |l| <= |s| && s[|s| - |l|..] == l && (|l| < |s| ==> s[|s| - |l| - 1] == c)
    ensures |Split(s, c)| == 1 ==> LastPiece(s, c) == s
    ensures |Split(s, c)| > 1 ==> |LastPiece(s, c)| < |s|
  {
    if |s| > 0 {
      var rest := Split(s[1..], c);
      var lr := rest[|rest| - 1];
      LastPieceSuffix(s[1..], c);
      TailSuffix(s, |lr|);
      if s[0] != c && |rest| == 1 {
        assert LastPiece(s, c) == [s[0]] + lr;
        assert [s[0]] + s[1..] == s;
      } else {
        assert LastPiece(s, c) == lr;
      }
    }
  }

  /** `(a + "." + b) + "." + d` read as `a`, a dot, and everything after it. */
  lemma DotRegroup(a: string, b: string, d: string)
    ensures (a + "." + b) + "." + d == a + ['.'] + (b + "." + d)
  {
  }

  /** The first piece of `a + [c] + b` is `a` when `a` is free of `c`. */
  lemma {:induction false} SplitAtFirst(a: string, b: string, c: char)
    requires c !in a
    ensures Split(a + [c] + b, c) == [a] + Split(b, c)
  {
    if |a| == 0 {
      assert a + [c] + b == [c] + b;
      assert ([c] + b)[1..] == b;
    } else {
      SplitAtFirst(a[1..], b, c);
      assert (a + [c] + b)[1..] == a[1..] + [c] + b;
      assert [a[0]] + a[1..] == a;
    }
  }

  /** JavaScript's `WhiteSpace` and `LineTerminator` characters, which `trim` removes. */
  predicate IsWhitespace(ch: char) {
    || ch == ' ' || ch == '\t' || ch == '\n' || ch == '\r'
    || ch == '\U{000B}' || ch == '\U{000C}' || ch == '\U{00A0}' || ch == '\U{1680}'
    || ('\U{2000}' <= ch <= '\U{200A}')
    || ch == '\U{2028}' || ch == '\U{2029}' || ch == '\U{202F}' || ch == '\U{205F}'
    || ch == '\U{3000}' || ch == '\U{FEFF}'
  }

  /** `s.trimStart()` */
  function TrimStart(s: string): string {
    if |s| > 0 && IsWhitespace(s[0]) then TrimStart(s[1..]) else s
  }

  /** `s.trimEnd()` */
  function TrimEnd(s: string): string {
    if |s| > 0 && IsWhitespace(s[|s| - 1]) then TrimEnd(s[..|s| - 1]) else s
  }

  /** `trimStart` keeps a suffix that does not start with whitespace. */
  lemma {:induction false} TrimStartSuffix(s: string)
    ensures |TrimStart(s)| <= |s| && TrimStart(s) == s[|s| - |TrimStart(s)|..]
    ensures TrimStart(s) != [] ==> !IsWhitespace(TrimStart(s)[0])
  {
    if |s| > 0 && IsWhitespace(s[0]) {
      TrimStartSuffix(s[1..]);
    }
  }

  /** `trimEnd` keeps a prefix that does not end with whitespace. */
  lemma {:induction false} TrimEndPrefix(s: string)
    ensures |TrimEnd(s)| <= |s| && TrimEnd(s) == s[..|TrimEnd(s)|]
    ensures TrimEnd(s) != [] ==> !IsWhitespace(TrimEnd(s)[|TrimEnd(s)| - 1])
  {
    if |s| > 0 && IsWhitespace(s[|s| - 1]) {
      TrimEndPrefix(s[..|s| - 1]);
    }
  }

  /** `s.trim()` */
  function Trim(s: string): (r: string) {
    TrimEnd(TrimStart(s))
  }

  /** A trimmed text starts and ends with a character that is not whitespace, and lies inside the original. */
  lemma TrimShape(s: string)
    ensures Trim(s) != [] ==> !IsWhitespace(Trim(s)[0]) && !IsWhitespace(Trim(s)[|Trim(s)| - 1])
    ensures forall ch :: ch in Trim(s) ==> ch in s
  {
    var t := TrimStart(s);
    var r := TrimEnd(t);
    TrimStartSuffix(s);
    TrimEndPrefix(t);
    if r != [] {
      assert r[0] == t[0];
    }
    forall ch | ch in r ensures ch in s {
      var i :| 0 <= i < |r| && r[i] == ch;
      assert t[i] == ch;
      assert s[|s| - |t| + i] == ch;
    }
  }

  /** Decimal digits of a natural number, as `String(n)` writes them. */
  function NatToString(n: nat): (r: string)
    ensures |r| >= 1
    ensures forall i :: 0 <= i < |r| ==> '0' <= r[i] <= '9'
    ensures n < 10 ==> |r| == 1
    ensures n < 100 ==> |r| <= 2
  {
    var d := [(('0' as int) + n % 10) as char];
    if n < 10 then d else NatToString(n / 10) + d
  }

  /** `String(i)` for an integer. */
  function IntToString(i: int): (r: string)
    ensures |r| >= 1
    ensures forall k :: 0 <= k < |r| ==> r[k] == '-' || '0' <= r[k] <= '9'
  {
    if i < 0 then "-" + NatToString(-i) else NatToString(i)
  }

  /** `String(n).padStart(2, '0')` */
  function PadTwo(n: nat): (r: string)
    ensures n < 100 ==> |r| == 2
  {
    var s := NatToString(n);
    if |s| < 2 then "0" + s else s
  }

  /** A character absent from every part and from the separator is absent from the join. */
  lemma {:induction false} JoinFree(parts: seq<string>, sep: string, c: char)
    requires c !in sep
    requires forall i :: 0 <= i < |parts| ==> c !in parts[i]
    ensures c !in Join(parts, sep)
  {
    if |parts| > 1 {
      JoinFree(parts[1..], sep, c);
    }
  }

  /** Trimming removes only whitespace, so it keeps every other character's count. */
  lemma {:induction false} TrimCount(s: string, c: char)
    requires !IsWhitespace(c)
    ensures CountChar(Trim(s), c) == CountChar(s, c)
  {
    TrimStartCount(s, c);
    TrimEndCount(TrimStart(s), c);
  }

  lemma {:induction false} TrimStartCount(s: string, c: char)
    requires !IsWhitespace(c)
    ensures CountChar(TrimStart(s), c) == CountChar(s, c)
  {
    if |s| > 0 && IsWhitespace(s[0]) {
      TrimStartCount(s[1..], c);
    }
  }

  lemma {:induction false} TrimEndCount(s: string, c: char)
    requires !IsWhitespace(c)
    ensures CountChar(TrimEnd(s), c) == CountChar(s, c)
  {
    if |s| > 0 && IsWhitespace(s[|s| - 1]) {
      TrimEndCount(s[..|s| - 1], c);
      assert s == s[..|s| - 1] + [s[|s| - 1]];
      CountCharConcat(s[..|s| - 1], [s[|s| - 1]], c);
    }
  }

  lemma {:induction false} ContainsAt(s: string, sub: string, i: nat)
    requires i + |sub| <= |s| && s[i..i + |sub|] == sub
    ensures Contains(s, sub)
  {
    if i > 0 {
      assert s[1..][i - 1..i - 1 + |sub|] == sub;
      ContainsAt(s[1..], sub, i - 1);
    }
  }

  /** Where the trimmed text sits inside the original, given two non-whitespace positions it must keep. */
  lemma TrimWindow(s: string, lo: nat, hi: nat) returns (off: nat)
    requires lo < hi <= |s| && !IsWhitespace(s[lo]) && !IsWhitespace(s[hi - 1])
    ensures off <= lo && hi <= off + |Trim(s)| <= |s|
    ensures Trim(s) == s[off..off + |Trim(s)|]
  {
    var t := TrimStart(s);
    TrimStartSuffix(s);
    TrimEndPrefix(t);
    off := |s| - |t|;
    TrimStartSkips(s, lo);
    assert t == s[off..];
    TrimEndSkips(t, hi - 1 - off);
  }

  /** `TrimStart` removes only whitespace: it keeps every position from a non-whitespace one on. */
  lemma {:induction false} TrimStartSkips(s: string, lo: nat)
    requires lo < |s| && !IsWhitespace(s[lo])
    ensures |s| - |TrimStart(s)| <= lo
  {
    if |s| > 0 && IsWhitespace(s[0]) {
      assert lo > 0;
      TrimStartSkips(s[1..], lo - 1);
    }
  }

  /** `TrimEnd` removes only whitespace: it keeps every position up to a non-whitespace one. */
  lemma {:induction false} TrimEndSkips(s: string, hi: nat)
    requires hi < |s| && !IsWhitespace(s[hi])
    ensures hi < |TrimEnd(s)|
  {
    if |s| > 0 && IsWhitespace(s[|s| - 1]) {
      assert hi < |s| - 1;
      TrimEndSkips(s[..|s| - 1], hi);
    }
  }

  /**
    Trimming cannot cut into a piece that begins and ends with a character
    other than whitespace.
   */
  lemma TrimKeeps(a: string, sub: string, b: string)
    requires sub != [] && !IsWhitespace(sub[0]) && !IsWhitespace(sub[|sub| - 1])
    ensures Contains(Trim(a + sub + b), sub)
    ensures a == [] ==> StartsWith(Trim(a + sub + b), sub)
  {
    var s := a + sub + b;
    assert s[|a|..|a| + |sub|] == sub;
    TrimKeepsAt(s, |a|, |a| + |sub|);
  }

  lemma TrimKeepsAt(s: string, lo: nat, hi: nat)
    requires lo < hi <= |s| && !IsWhitespace(s[lo]) && !IsWhitespace(s[hi - 1])
    ensures Contains(Trim(s), s[lo..hi])
    ensures lo == 0 ==> StartsWith(Trim(s), s[lo..hi])
  {
    var off := TrimWindow(s, lo, hi);
    var r := Trim(s);
    WindowSlice(s, r, off, lo, hi);
    ContainsAt(r, s[lo..hi], lo - off);
  }

  lemma WindowSlice(s: string, r: string, off: nat, lo: nat, hi: nat)
    requires off <= lo <= hi <= off + |r| <= |s| && r == s[off..off + |r|]
    ensures r[lo - off..hi - off] == s[lo..hi]
  {
    forall k | 0 <= k < hi - lo
      ensures r[lo - off..hi - off][k] == s[lo..hi][k]
    {
      assert r[lo - off + k] == s[off..off + |r|][lo - off + k] == s[lo + k];
    }
  }
}
