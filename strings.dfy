/** The JavaScript string operations the core uses: `startsWith`, `includes`,
    `toLowerCase`, `split(c)` with `pop()` and `[0]`, the decimal rendering of
    an integer in a template literal, `padStart(n, "0")`, and the code-unit
    order of `<=` on strings. */
module Strings {
  import Lists

  /** `s.startsWith(prefix)`. */
  predicate StartsWith(s: string, prefix: string)
  {
    |prefix| <= |s| && s[..|prefix|] == prefix
  }

  /** `s.includes(sub)`: `sub` starts at some position of `s`. */
  predicate Includes(s: string, sub: string)
    decreases |s|
  {
    StartsWith(s, sub) || (s != [] && Includes(s[1..], sub))
  }

  /** `sub` occurs in `s` starting at offset `i`. */
  predicate OccursAt(s: string, sub: string, i: int)
  {
    0 <= i <= |s| - |sub| && s[i..i + |sub|] == sub
  }

  /** Includes agrees with the slice-based reading of "occurs at some offset". */
  lemma {:induction false} IncludesAt(s: string, sub: string)
    ensures Includes(s, sub) <==> exists i :: OccursAt(s, sub, i)
  {
    if Includes(s, sub) {
      if StartsWith(s, sub) {
        assert OccursAt(s, sub, 0);
      } else {
        IncludesAt(s[1..], sub);
        var i :| OccursAt(s[1..], sub, i);
        assert s[1..][i..i + |sub|] == s[i + 1..i + 1 + |sub|];
        assert OccursAt(s, sub, i + 1);
      }
    }
    if exists i :: OccursAt(s, sub, i) {
      var i :| OccursAt(s, sub, i);
      if i > 0 {
        assert s[1..][i - 1..i - 1 + |sub|] == s[i..i + |sub|];
        assert OccursAt(s[1..], sub, i - 1);
        IncludesAt(s[1..], sub);
      } else {
        assert StartsWith(s, sub);
      }
    }
  }

  /** Every string includes the empty string. */
  lemma IncludesEmpty(s: string)
    ensures Includes(s, "")
  {
    assert StartsWith(s, "");
  }

  /** `toLowerCase` on one character, for the ASCII letters A to Z. */
  function LowerChar(c: char): (d: char)
    ensures !('A' <= d <= 'Z')
    ensures 'a' <= c <= 'z' ==> d == c
  {
    if 'A' <= c <= 'Z' then (c as int + 32) as char else c
  }

  /** `s.toLowerCase()`, character by character. */
  function ToLower(s: string): (r: string)
    ensures |r| == |s|
    ensures forall i :: 0 <= i < |r| ==> !('A' <= r[i] <= 'Z')
  {
    Lists.Map(s, LowerChar)
  }

  lemma ToLowerIdempotent(s: string)
    ensures ToLower(ToLower(s)) == ToLower(s)
  {
    var once := ToLower(s);
    assert forall i :: 0 <= i < |once| ==> LowerChar(once[i]) == once[i];
  }

  /** `s.toLowerCase().includes(term.toLowerCase())`. */
  predicate ContainsIgnoringCase(s: string, term: string)
  {
    Includes(ToLower(s), ToLower(term))
  }

  /** An empty search term matches every string. */
  lemma ContainsEmpty(s: string)
    ensures ContainsIgnoringCase(s, "")
  {
    IncludesEmpty(ToLower(s));
    assert ToLower("") == "";
  }

  /** `s.split(c)`: the pieces between occurrences of `c`; there is always at
      least one piece, and `"".split(c)` is `[""]`. */
  function Split(s: string, c: char): (parts: seq<string>)
    ensures |parts| >= 1
    ensures forall k :: 0 <= k < |parts| ==> c !in parts[k]
    decreases |s|
  {
    if s == [] then [""]
    else
      var rest := Split(s[1..], c);
      if s[0] == c then [""] + rest else [[s[0]] + rest[0]] + rest[1..]
  }

  /** The inverse of Split: the pieces glued back together with `c`. */
  function Join(parts: seq<string>, c: char): string
    requires |parts| >= 1
  {
    if |parts| == 1 then parts[0] else parts[0] + [c] + Join(parts[1..], c)
  }

  /** Splitting loses nothing: joining the pieces gives back the string. */
  lemma {:induction false} SplitJoin(s: string, c: char)
    ensures Join(Split(s, c), c) == s
  {
    if s != [] {
      var rest := Split(s[1..], c);
      SplitJoin(s[1..], c);
      var parts := Split(s, c);
      if s[0] == c {
        assert parts[1..] == rest;
        assert s == [c] + s[1..];
      } else if |rest| == 1 {
        assert s == [s[0]] + s[1..];
      } else {
        assert parts[1..] == rest[1..];
        assert Join(rest, c) == rest[0] + [c] + Join(rest[1..], c);
        assert s == [s[0]] + s[1..];
      }
    }
  }

  /** A string without the separator splits into itself alone. */
  lemma {:induction false} SplitWithoutSeparator(s: string, c: char)
    requires c !in s
    ensures Split(s, c) == [s]
  {
    if s != [] {
      SplitWithoutSeparator(s[1..], c);
      assert s == [s[0]] + s[1..];
    }
  }

  /** The first piece of `a + [c] + b` is `a` when `a` has no `c`: so `x.split(c)[0]`
      is the text before the first `c`. */
  lemma {:induction false} SplitFirstPiece(a: string, c: char, b: string)
    requires c !in a
    ensures Split(a + [c] + b, c)[0] == a
  {
    if a == [] {
      assert (a + [c] + b)[1..] == b;
    } else {
      assert (a + [c] + b)[1..] == a[1..] + [c] + b;
      SplitFirstPiece(a[1..], c, b);
      assert a == [a[0]] + a[1..];
    }
  }

  /** `x.split(c).pop()`: the last piece. */
  function LastPiece(s: string, c: char): string
  {
    var parts := Split(s, c);
    parts[|parts| - 1]
  }

  /** A string ending in the separator splits into at least two pieces, the
      last of them empty. */
  lemma {:induction false} SplitEndingInSeparator(s: string, c: char)
    ensures |Split(s + [c], c)| >= 2
    ensures LastPiece(s + [c], c) == ""
  {
    if s == [] {
      var one: string := [c];
      assert one[1..] == [];
    } else {
      assert (s + [c])[1..] == s[1..] + [c];
      SplitEndingInSeparator(s[1..], c);
    }
  }

  /** How the last piece of a non-empty string relates to that of its tail:
      the first character joins it only when the tail has no separator. */
  lemma LastPieceStep(s: string, c: char)
    requires s != []
    ensures s[0] != c && |Split(s[1..], c)| == 1 ==> LastPiece(s, c) == [s[0]] + Split(s[1..], c)[0]
    ensures s[0] == c || |Split(s[1..], c)| > 1 ==> LastPiece(s, c) == LastPiece(s[1..], c)
  {
    var rest := Split(s[1..], c);
    var parts := Split(s, c);
    if s[0] == c || |rest| > 1 {
      assert parts[|parts| - 1] == rest[|rest| - 1];
    }
  }

  /** The last piece is the longest suffix without `c`: it is a suffix, has no
      `c`, and is either the whole string or preceded by a `c`. */
  lemma {:induction false} LastPieceIsSuffixAfterLastSeparator(s: string, c: char)
    ensures |LastPiece(s, c)| <= |s|
    ensures LastPiece(s, c) == s[|s| - |LastPiece(s, c)|..]
    ensures c !in LastPiece(s, c)
    ensures |LastPiece(s, c)| < |s| ==> s[|s| - |LastPiece(s, c)| - 1] == c
  {
    if s != [] {
      var tail := s[1..];
      LastPieceIsSuffixAfterLastSeparator(tail, c);
      LastPieceStep(s, c);
      var rest := Split(tail, c);
      var r := LastPiece(tail, c);
      if s[0] != c && |rest| == 1 {
        SplitJoin(tail, c);
        assert tail == rest[0];
        assert s == [s[0]] + tail;
      } else {
        if s[0] != c && |r| == |tail| {
          assert r == tail;
          SplitWithoutSeparator(tail, c);
          assert false;
        }
        assert s[|s| - |r|..] == tail[|tail| - |r|..];
        if |r| < |tail| {
          assert s[|s| - |r| - 1] == tail[|tail| - |r| - 1];
        }
      }
    }
  }


  predicate IsDigit(c: char) { '0' <= c <= '9' }

  predicate AllDigits(s: string) { forall i :: 0 <= i < |s| ==> IsDigit(s[i]) }

  function DigitChar(d: nat): (c: char)
    requires d < 10
    ensures IsDigit(c)
  {
    ('0' as int + d) as char
  }

  /** `${n}` for a non-negative integer: its decimal digits, with no leading zero. */
  function Decimal(n: nat): (r: string)
    ensures |r| >= 1 && AllDigits(r)
    ensures |r| > 1 ==> r[0] != '0'
  {
    if n < 10 then [DigitChar(n)] else Decimal(n / 10) + [DigitChar(n % 10)]
  }

  /** Reads a string of decimal digits back as a number. */
  function ParseDecimal(s: string): nat
    requires AllDigits(s)
  {
    if s == [] then 0 else 10 * ParseDecimal(s[..|s| - 1]) + (s[|s| - 1] as int - '0' as int)
  }

  lemma {:induction false} DecimalRoundTrip(n: nat)
    ensures ParseDecimal(Decimal(n)) == n
  {
    if n >= 10 {
      DecimalRoundTrip(n / 10);
      var r := Decimal(n);
      assert r[..|r| - 1] == Decimal(n / 10);
    }
  }

  /** Different numbers render differently. */
  lemma DecimalInjective(m: nat, n: nat)
    requires Decimal(m) == Decimal(n)
    ensures m == n
  {
    DecimalRoundTrip(m);
    DecimalRoundTrip(n);
  }

  /** `String(i)` for any integer: a minus sign before the digits of a negative one. */
  function IntText(i: int): (r: string)
    ensures forall k :: 0 <= k < |r| ==> IsDigit(r[k]) || r[k] == '-'
  {
    if i < 0 then "-" + Decimal(-i) else Decimal(i)
  }

  /** `s.padStart(width, "0")`: zeros in front up to `width`; a longer string is left as it is. */
  function PadStart(s: string, width: nat): (r: string)
    ensures |r| == if |s| >= width then |s| else width
    ensures r[|r| - |s|..] == s
    ensures forall k :: 0 <= k < |r| - |s| ==> r[k] == '0'
  {
    if |s| >= width then s else seq(width - |s|, _ => '0') + s
  }

  function TenTo(k: nat): nat
  {
    if k == 0 then 1 else 10 * TenTo(k - 1)
  }

  /** A number below 10^width has at most `width` digits. */
  lemma {:induction false} DecimalFits(n: nat, width: nat)
    requires 1 <= width && n < TenTo(width)
    ensures |Decimal(n)| <= width
  {
    if n >= 10 {
      assert TenTo(1) == 10;
      assert width >= 2;
      assert n / 10 < TenTo(width - 1);
      DecimalFits(n / 10, width - 1);
    }
  }

  /** Padding digits with zeros to at least their own length gives exactly
      `width` digits. */
  lemma PaddedDigits(s: string, width: nat)
    requires AllDigits(s) && |s| <= width
    ensures |PadStart(s, width)| == width && AllDigits(PadStart(s, width))
  {
    var r := PadStart(s, width);
    forall k | 0 <= k < |r|
      ensures IsDigit(r[k])
    {
      if k >= |r| - |s| {
        assert r[k] == r[|r| - |s|..][k - (|r| - |s|)];
      }
    }
  }

  /** `a <= b` on JavaScript strings and on text columns under a byte
      collation: lexicographic order of the characters. */
  predicate LexLe(a: string, b: string)
    decreases |a|
  {
    a == [] || (b != [] && (a[0] < b[0] || (a[0] == b[0] && LexLe(a[1..], b[1..]))))
  }

  lemma {:induction false} LexLeReflexive(a: string)
    ensures LexLe(a, a)
  {
    if a != [] {
      LexLeReflexive(a[1..]);
    }
  }

  lemma {:induction false} LexLeTransitive(a: string, b: string, c: string)
    requires LexLe(a, b) && LexLe(b, c)
    ensures LexLe(a, c)
  {
    if a != [] && a[0] == b[0] && b[0] == c[0] {
      LexLeTransitive(a[1..], b[1..], c[1..]);
    }
  }

  lemma {:induction false} LexLeTotal(a: string, b: string)
    ensures LexLe(a, b) || LexLe(b, a)
  {
    if a != [] && b != [] && a[0] == b[0] {
      LexLeTotal(a[1..], b[1..]);
    }
  }

  lemma {:induction false} LexLeAntisymmetric(a: string, b: string)
    requires LexLe(a, b) && LexLe(b, a)
    ensures a == b
  {
    if a != [] && b != [] {
      LexLeAntisymmetric(a[1..], b[1..]);
      assert a == [a[0]] + a[1..];
      assert b == [b[0]] + b[1..];
    }
  }

  /** A rendered number holds no character other than digits. */
  lemma DecimalLacks(n: nat, c: char)
    requires !IsDigit(c)
    ensures c !in Decimal(n)
  {
    var d := Decimal(n);
    forall k | 0 <= k < |d| ensures d[k] != c { assert IsDigit(d[k]); }
  }

  /** A common prefix can be cancelled. */
  lemma PrefixCancels(p: string, a: string, b: string)
    requires p + a == p + b
    ensures a == b
  {
    assert a == (p + a)[|p|..];
    assert b == (p + b)[|p|..];
  }

  /** Two strings glued around a separator that occurs in neither left part come
      apart the same way: the left parts agree and so do the rest. */
  lemma SeparatorSplitsUniquely(a1: string, b1: string, a2: string, b2: string, c: char)
    requires c !in a1 && c !in a2
    requires a1 + [c] + b1 == a2 + [c] + b2
    ensures a1 == a2 && b1 == b2
  {
    var s := a1 + [c] + b1;
    assert s[..|a1|] == a1 && s[|a1|] == c;
    assert s[..|a2|] == a2 && s[|a2|] == c;
    Lists.IndexOfIsFirst(s, c, |a1|);
    Lists.IndexOfIsFirst(s, c, |a2|);
    assert a1 == s[..|a1|] && a2 == s[..|a2|];
    assert b1 == s[|a1| + 1..] && b2 == s[|a2| + 1..];
  }
}
