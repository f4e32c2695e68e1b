/** ASCII-only definitions of the Python string and list built-ins the
    generator relies on: `*` on strings, `s[:-1]`, `s[a:b]`, `split`, `join`,
    `replace`, `upper`, `lower`, `capitalize`, `rfind`, `isdigit`, `int`,
    and `in` between two strings.  Each carries the contract or the lemma that
    says what it computes, independently of how it is written.
 */
module PyStr {

  // ---------------------------------------------------------------------------
  // Repetition and slicing
  // ---------------------------------------------------------------------------

  /** `" " * n` */
  function Spaces(n: nat): (r: string)
    ensures |r| == n
    ensures forall i :: 0 <= i < |r| ==> r[i] == ' '
  {
    if n == 0 then "" else Spaces(n - 1) + " "
  }

  /** `s * n` for a non-negative count. */
  function Repeat(s: string, n: nat): (r: string)
    ensures forall i :: 0 <= i < |r| ==> r[i] in s
  {
    if n == 0 then "" else Repeat(s, n - 1) + s
  }

  lemma {:induction false} RepeatLength(s: string, n: nat)
    ensures |Repeat(s, n)| == |s| * n
  {
    if n > 0 {
      RepeatLength(s, n - 1);
      assert |s| * n == |s| * (n - 1) + |s|;
    }
  }

  /** `s[:-1]`: everything but the last character; the empty string stays empty. */
  function DropLast(s: string): (r: string)
    ensures |s| > 0 ==> |r| == |s| - 1 && s == r + [s[|s| - 1]]
    ensures |s| == 0 ==> r == ""
  {
    if |s| == 0 then "" else s[..|s| - 1]
  }

  /** `xs[a:b]` for non-negative bounds: Python clamps both bounds to the length. */
  function Slice<T>(xs: seq<T>, a: nat, b: nat): (r: seq<T>)
    ensures |r| == if a < b && a < |xs| then (if b <= |xs| then b else |xs|) - a else 0
    ensures forall i :: 0 <= i < |r| ==> r[i] == xs[a + i]
  {
    if a >= b || a >= |xs| then [] else xs[a..if b <= |xs| then b else |xs|]
  }

  // ---------------------------------------------------------------------------
  // split and join
  // ---------------------------------------------------------------------------

  /** `s.split(c)` for a one-character separator: always at least one piece. */
  function Split(s: string, c: char): (r: seq<string>)
    ensures |r| >= 1
    decreases |s|
  {
    if |s| == 0 then [""]
    else if s[0] == c then [""] + Split(s[1..], c)
    else
      var rest := Split(s[1..], c);
      [[s[0]] + rest[0]] + rest[1..]
  }

  /** No piece of a split contains the separator. */
  lemma {:induction false} SplitPieces(s: string, c: char)
    ensures forall k, i :: 0 <= k < |Split(s, c)| && 0 <= i < |Split(s, c)[k]| ==> Split(s, c)[k][i] != c
    decreases |s|
  {
    if |s| > 0 {
      SplitPieces(s[1..], c);
      var rest := Split(s[1..], c);
      var r := Split(s, c);
      forall k, i | 0 <= k < |r| && 0 <= i < |r[k]|
        ensures r[k][i] != c
      {
        if s[0] == c {
          assert r[k] == ([""] + rest)[k];
          assert k > 0 && r[k] == rest[k - 1];
          assert rest[k - 1][i] != c;
        } else if k == 0 {
          assert r[0] == [s[0]] + rest[0];
          if i > 0 {
            assert r[0][i] == rest[0][i - 1];
            assert rest[0][i - 1] != c;
          }
        } else {
          assert r[k] == rest[k];
          assert rest[k][i] != c;
        }
      }
    }
  }

  /** A split gives one piece exactly when the separator does not occur. */
  lemma {:induction false} SplitSingle(s: string, c: char)
    ensures |Split(s, c)| == 1 <==> c !in s
    decreases |s|
  {
    if |s| > 0 {
      SplitSingle(s[1..], c);
      assert c in s <==> s[0] == c || c in s[1..];
    }
  }

  lemma {:induction false} SplitWithoutSeparator(a: string, c: char)
    requires c !in a
    ensures Split(a, c) == [a]
    decreases |a|
  {
    if |a| > 0 {
      SplitWithoutSeparator(a[1..], c);
      assert [a[0]] + a[1..] == a;
    }
  }

  /** The first piece of a split is everything before the first separator. */
  lemma {:induction false} SplitAtFirst(a: string, b: string, c: char)
    requires c !in a
    ensures Split(a + [c] + b, c) == [a] + Split(b, c)
    decreases |a|
  {
    if |a| == 0 {
      assert a + [c] + b == [c] + b;
      assert ([c] + b)[1..] == b;
    } else {
      SplitAtFirst(a[1..], b, c);
      assert (a + [c] + b)[1..] == a[1..] + [c] + b;
      assert [a[0]] + a[1..] == a;
    }
  }

  /** `sep.join(parts)` */
  function Join(sep: string, parts: seq<string>): string
  {
    if |parts| == 0 then ""
    else if |parts| == 1 then parts[0]
    else parts[0] + sep + Join(sep, parts[1..])
  }

  /** `s.replace(c, r)` for a one-character pattern, as an independent
      character-by-character definition of what split-then-join produces. */
  function ReplaceChar(s: string, c: char, r: string): (t: string)
    ensures c !in r ==> c !in t
  {
    if |s| == 0 then ""
    else (if s[0] == c then r else [s[0]]) + ReplaceChar(s[1..], c, r)
  }

  lemma JoinConsFirst(sep: string, a: string, x: string, tail: seq<string>)
    ensures Join(sep, [a + x] + tail) == a + Join(sep, [x] + tail)
  {
    if |tail| > 0 {
      assert ([a + x] + tail)[1..] == tail;
      assert ([x] + tail)[1..] == tail;
    }
  }

  /** Joining the pieces of a split with `r` replaces every separator by `r`:
      this is what `", ".join(v.split(','))` does to a value list. */
  lemma {:induction false} JoinSplit(s: string, c: char, r: string)
    ensures Join(r, Split(s, c)) == ReplaceChar(s, c, r)
    decreases |s|
  {
    if |s| > 0 {
      var rest := Split(s[1..], c);
      JoinSplit(s[1..], c, r);
      if s[0] == c {
        assert Split(s, c) == [""] + rest;
        assert ([""] + rest)[1..] == rest;
      } else {
        assert Split(s, c) == [[s[0]] + rest[0]] + rest[1..];
        assert rest == [rest[0]] + rest[1..];
        JoinConsFirst(r, [s[0]], rest[0], rest[1..]);
      }
    }
  }

  lemma {:induction false} ReplaceCharIdentity(s: string, c: char)
    ensures ReplaceChar(s, c, [c]) == s
    decreases |s|
  {
    if |s| > 0 {
      ReplaceCharIdentity(s[1..], c);
      assert s == [s[0]] + s[1..];
    }
  }

  /** Split then join with the same separator gives the string back. */
  lemma SplitJoinRoundTrip(s: string, c: char)
    ensures Join([c], Split(s, c)) == s
  {
    JoinSplit(s, c, [c]);
    ReplaceCharIdentity(s, c);
  }

  /** The number of occurrences of `c` in `s`. */
  function Count(s: string, c: char): nat
  {
    if |s| == 0 then 0 else (if s[0] == c then 1 else 0) + Count(s[1..], c)
  }

  lemma {:induction false} ReplaceCharLength(s: string, c: char, r: string)
    ensures |ReplaceChar(s, c, r)| == |s| + Count(s, c) * (|r| - 1)
    decreases |s|
  {
    if |s| > 0 {
      ReplaceCharLength(s[1..], c, r);
      if s[0] == c {
        assert Count(s, c) * (|r| - 1) == Count(s[1..], c) * (|r| - 1) + (|r| - 1);
      }
    }
  }

  /** The last element of a list: `xs[-1]`. */
  function Last<T>(xs: seq<T>): T
    requires |xs| > 0
  {
    xs[|xs| - 1]
  }

  // ---------------------------------------------------------------------------
  // Case conversion (ASCII letters only)
  // ---------------------------------------------------------------------------

  predicate IsLowerAscii(c: char) { 'a' <= c <= 'z' }

  predicate IsUpperAscii(c: char) { 'A' <= c <= 'Z' }

  /** `c.upper()` for one character: an ASCII lower-case letter becomes its
      upper-case counterpart, 32 code points lower; anything else is kept. */
  function UpperChar(c: char): (u: char)
    ensures !IsLowerAscii(u)
    ensures IsLowerAscii(c) ==> IsUpperAscii(u) && u as int == c as int - 32
    ensures !IsLowerAscii(c) ==> u == c
  {
    if IsLowerAscii(c) then (c as int - 32) as char else c
  }

  /** `c.lower()` for one character, the mirror of UpperChar. */
  function LowerChar(c: char): (l: char)
    ensures !IsUpperAscii(l)
    ensures IsUpperAscii(c) ==> IsLowerAscii(l) && l as int == c as int + 32
    ensures !IsUpperAscii(c) ==> l == c
  {
    if IsUpperAscii(c) then (c as int + 32) as char else c
  }

  /** Upper- and lower-casing undo each other on ASCII letters. */
  lemma CaseRoundTrip(c: char)
    ensures IsLowerAscii(c) ==> LowerChar(UpperChar(c)) == c
    ensures IsUpperAscii(c) ==> UpperChar(LowerChar(c)) == c
  {
  }

  /** `s.upper()` */
  function Upper(s: string): (r: string)
    ensures |r| == |s|
    ensures forall i :: 0 <= i < |s| ==> r[i] == UpperChar(s[i])
  {
    if |s| == 0 then "" else [UpperChar(s[0])] + Upper(s[1..])
  }

  /** `s.lower()` */
  function Lower(s: string): (r: string)
    ensures |r| == |s|
    ensures forall i :: 0 <= i < |s| ==> r[i] == LowerChar(s[i])
  {
    if |s| == 0 then "" else [LowerChar(s[0])] + Lower(s[1..])
  }

  /** `s.capitalize()`: the first character upper case, the rest lower case. */
  function Capitalize(s: string): (r: string)
    ensures |r| == |s|
    ensures |s| > 0 ==> r[0] == UpperChar(s[0])
    ensures forall i :: 1 <= i < |s| ==> r[i] == LowerChar(s[i])
  {
    if |s| == 0 then "" else [UpperChar(s[0])] + Lower(s[1..])
  }

  function CapitalizeAll(parts: seq<string>): (r: seq<string>)
    ensures |r| == |parts|
    ensures forall i :: 0 <= i < |parts| ==> r[i] == Capitalize(parts[i])
  {
    if |parts| == 0 then [] else [Capitalize(parts[0])] + CapitalizeAll(parts[1..])
  }

  /** `"".join(map(lambda x: x.capitalize(), s.split("_")))` */
  function CamelCase(s: string): string
  {
    Join("", CapitalizeAll(Split(s, '_')))
  }

  /** Character-level reference for CamelCase: underscores are dropped, the
      character that starts a piece (the first one, or one after `_`) is upper
      cased and every other character is lower cased. */
  function CamelRef(s: string, atStart: bool): (r: string)
    ensures '_' !in r
    ensures |r| == |s| - Count(s, '_')
  {
    if |s| == 0 then ""
    else if s[0] == '_' then CamelRef(s[1..], true)
    else [if atStart then UpperChar(s[0]) else LowerChar(s[0])] + CamelRef(s[1..], false)
  }

  lemma JoinEmptyCons(a: string, tail: seq<string>)
    ensures Join("", [a] + tail) == a + Join("", tail)
  {
    if |tail| > 0 {
      assert ([a] + tail)[1..] == tail;
    }
  }

  lemma {:induction false} CamelCaseAtStart(s: string)
    ensures Join("", CapitalizeAll(Split(s, '_'))) == CamelRef(s, true)
    decreases |s|, 1
  {
    if |s| > 0 {
      var rest := Split(s[1..], '_');
      if s[0] == '_' {
        assert Split(s, '_') == [""] + rest;
        assert CapitalizeAll([""] + rest) == [""] + CapitalizeAll(rest);
        JoinEmptyCons("", CapitalizeAll(rest));
        CamelCaseAtStart(s[1..]);
      } else {
        var p := [s[0]] + rest[0];
        assert Split(s, '_') == [p] + rest[1..];
        assert CapitalizeAll([p] + rest[1..]) == [Capitalize(p)] + CapitalizeAll(rest[1..]);
        assert Capitalize(p) == [UpperChar(s[0])] + Lower(rest[0]) by {
          assert p[1..] == rest[0];
        }
        JoinEmptyCons(Capitalize(p), CapitalizeAll(rest[1..]));
        CamelCaseInside(s[1..]);
      }
    }
  }

  lemma {:induction false} CamelCaseInside(t: string)
    ensures Lower(Split(t, '_')[0]) + Join("", CapitalizeAll(Split(t, '_')[1..])) == CamelRef(t, false)
    decreases |t|, 0
  {
    if |t| > 0 {
      var rest := Split(t[1..], '_');
      if t[0] == '_' {
        assert Split(t, '_') == [""] + rest;
        assert Split(t, '_')[1..] == rest;
        CamelCaseAtStart(t[1..]);
      } else {
        assert Split(t, '_') == [[t[0]] + rest[0]] + rest[1..];
        assert Lower([t[0]] + rest[0]) == [LowerChar(t[0])] + Lower(rest[0]);
        CamelCaseInside(t[1..]);
      }
    }
  }

  /** CamelCase agrees with its character-level reference, so it contains no
      underscore and is as long as `s` without its underscores. */
  lemma CamelCaseIsCamelRef(s: string)
    ensures CamelCase(s) == CamelRef(s, true)
    ensures '_' !in CamelCase(s)
    ensures |CamelCase(s)| == |s| - Count(s, '_')
  {
    CamelCaseAtStart(s);
  }

  // ---------------------------------------------------------------------------
  // Searching
  // ---------------------------------------------------------------------------

  /** `s.rfind(c)`: the last index of `c`, or -1. */
  function RFind(s: string, c: char): (r: int)
    ensures -1 <= r < |s|
    ensures r >= 0 ==> s[r] == c
    ensures forall j :: r < j < |s| ==> s[j] != c
    decreases |s|
  {
    if |s| == 0 then -1
    else if s[|s| - 1] == c then |s| - 1
    else RFind(s[..|s| - 1], c)
  }

  /** `a in b` for two strings: `a` occurs as a contiguous part of `b`. */
  predicate IsSubstring(a: string, b: string)
  {
    exists i | 0 <= i <= |b| - |a| :: OccursAt(a, b, i)
  }

  predicate OccursAt(a: string, b: string, i: nat)
    requires i + |a| <= |b|
  {
    b[i..i + |a|] == a
  }

  // ---------------------------------------------------------------------------
  // Digits
  // ---------------------------------------------------------------------------

  predicate IsDigitChar(c: char) { '0' <= c <= '9' }

  /** `s.isdigit()`, ASCII digits only: non-empty and all digits. */
  predicate IsDigits(s: string)
  {
    |s| > 0 && forall i :: 0 <= i < |s| ==> IsDigitChar(s[i])
  }

  /** `int(s)` for a string of decimal digits. */
  function DigitsValue(s: string): (n: nat)
    requires forall i :: 0 <= i < |s| ==> IsDigitChar(s[i])
    decreases |s|
  {
    if |s| == 0 then 0
    else
      assert IsDigitChar(s[|s| - 1]);
      10 * DigitsValue(s[..|s| - 1]) + (s[|s| - 1] as int - '0' as int)
  }
}
