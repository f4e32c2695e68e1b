/** What `StructGen.long_str_append` appends
    (tools/pqtools_to_code/pqtools_to_code.py:297-316), as a function of the
    loop state, with the properties of the lines it produces.

    The loop keeps the text still to emit, `long_str`, and a counter `length`.
    While `length` exceeds the maximum it cuts `long_str` after the last comma
    of its first MAX characters, emits that piece, puts the indentation back
    in front of the rest and lowers `length` by the length of the piece.  The
    counter therefore forgets the indentation it puts back: after k cuts it is
    `|long_str| - k*|indent|`, and the last line can be longer than MAX.  A
    window without a comma makes the loop run for ever; the function returns
    None for that.
 */
module LineWrap {
  import opened Outcomes
  import opened PyStr

  /** `long_str[0:MAX]` */
  function Window(longStr: string, max: nat): (w: string)
    ensures |w| <= max && w <= longStr
    ensures |w| == if max <= |longStr| then max else |longStr|
  {
    if max <= |longStr| then longStr[..max] else longStr
  }

  /** The loop from the state (`longStr`, `length`): the lines it appends, or
      None when it never stops. */
  function WrapLoop(indent: string, longStr: string, length: int, max: nat): (r: Option<seq<string>>)
    decreases if length > 0 then length else 0
  {
    if length <= 0 then Some([])
    else if length <= max then Some([longStr])
    else
      var idx := CutIndex(longStr, max);
      if idx < 0 then None
      else Prepend(longStr[..idx + 1], WrapLoop(indent, indent + longStr[idx + 1..], length - (idx + 1), max))
  }

  /** `long_str[0:MAX].rfind(',')`: where the cut goes, or -1. */
  function CutIndex(longStr: string, max: nat): (idx: int)
    ensures -1 <= idx < |longStr| && idx < max
    ensures idx >= 0 ==> longStr[idx] == ','
  {
    LastComma(longStr, if max <= |longStr| then max else |longStr|)
  }

  /** The position of the last comma among the first `n` characters, or -1. */
  function LastComma(s: string, n: nat): (r: int)
    requires n <= |s|
    ensures -1 <= r < n
    ensures r >= 0 ==> s[r] == ','
    decreases n
  {
    if n == 0 then -1 else if s[n - 1] == ',' then n - 1 else LastComma(s, n - 1)
  }

  /** LastComma is `rfind` on the first `n` characters. */
  lemma {:induction false} LastCommaIsRFind(s: string, n: nat)
    requires n <= |s|
    ensures LastComma(s, n) == RFind(s[..n], ',')
    decreases n
  {
    if n > 0 && s[n - 1] != ',' {
      LastCommaIsRFind(s, n - 1);
      assert s[..n][..n - 1] == s[..n - 1];
    }
  }

  /** LastComma finds no comma exactly when there is none. */
  lemma {:induction false} LastCommaNone(s: string, n: nat)
    requires n <= |s|
    ensures LastComma(s, n) < 0 <==> forall i :: 0 <= i < n ==> s[i] != ','
    decreases n
  {
    if n > 0 {
      LastCommaNone(s, n - 1);
    }
  }

  lemma CutIndexIsRFind(longStr: string, max: nat)
    ensures CutIndex(longStr, max) == RFind(Window(longStr, max), ',')
  {
    var n := if max <= |longStr| then max else |longStr|;
    LastCommaIsRFind(longStr, n);
    assert Window(longStr, max) == longStr[..n];
  }

  function Prepend(line: string, rest: Option<seq<string>>): Option<seq<string>>
  {
    match rest
    case None => None
    case Some(lines) => Some([line] + lines)
  }

  /** One turn of the loop that cuts: the cut is at a comma, the piece up to
      it is the first line and the rest come from the state after the cut. */
  lemma WrapLoopStep(indent: string, longStr: string, length: int, max: nat)
    requires length > max && WrapLoop(indent, longStr, length, max).Some?
    ensures 0 <= CutIndex(longStr, max)
    ensures var idx := CutIndex(longStr, max);
            var rest := WrapLoop(indent, indent + longStr[idx + 1..], length - (idx + 1), max);
            && rest.Some?
            && WrapLoop(indent, longStr, length, max).value == [longStr[..idx + 1]] + rest.value
  {
  }

  /** One cut of the loop: when the counter exceeds MAX and the loop ends,
      the window has a comma, the piece of the window up to it is the first
      line, and the rest of the lines come from the rest of the text with the
      indentation put back. */
  lemma WrapLoopCut(indent: string, longStr: string, length: int, max: nat, idx: int, lines: seq<string>)
    requires length > max && WrapLoop(indent, longStr, length, max) == Some(lines)
    requires idx == RFind(Window(longStr, max), ',')
    ensures 0 <= idx && |lines| >= 1 && lines == [Window(longStr, max)[..idx + 1]] + lines[1..]
    ensures |Window(longStr, max)[..idx + 1]| == idx + 1
    ensures WrapLoop(indent, indent + longStr[idx + 1..], length - (idx + 1), max) == Some(lines[1..])
  {
    CutIndexIsRFind(longStr, max);
    WrapLoopStep(indent, longStr, length, max);
    assert Window(longStr, max)[..idx + 1] == longStr[..idx + 1];
  }

  /** The last turn of the loop: the whole remaining text is one line. */
  lemma WrapLoopLast(indent: string, longStr: string, length: int, max: nat, lines: seq<string>)
    requires 0 < length <= max && WrapLoop(indent, longStr, length, max) == Some(lines)
    ensures lines == [longStr]
    ensures WrapLoop(indent, longStr, 0, max) == Some([])
  {
  }

  /** `TAB*level + "{" + string + "}" + ','` */
  function LongStr(indent: string, s: string): string
  {
    indent + "{" + s + "}" + ","
  }

  /** `long_str_append(s, level)` with `indent == TAB*level`. */
  function Wrap(indent: string, s: string, max: nat): Option<seq<string>>
  {
    WrapLoop(indent, LongStr(indent, s), |LongStr(indent, s)|, max)
  }

  /** A continuation line without the indentation put back in front of it. */
  function Unindent(indent: string, line: string): string
  {
    if indent <= line then line[|indent|..] else line
  }

  function UnindentAll(indent: string, lines: seq<string>): string
  {
    if |lines| == 0 then "" else Unindent(indent, lines[0]) + UnindentAll(indent, lines[1..])
  }

  /** The first line as it is, then every continuation line unindented. */
  function Rejoin(indent: string, lines: seq<string>): string
    requires |lines| >= 1
  {
    lines[0] + UnindentAll(indent, lines[1..])
  }

  /** A comma found in a window of a text that starts with the indentation
      lies after the indentation. */
  lemma CommaAfterIndent(indent: string, longStr: string, max: nat)
    requires ',' !in indent && indent <= longStr
    requires CutIndex(longStr, max) >= 0
    ensures CutIndex(longStr, max) >= |indent|
  {
  }

  /** Wrapping only cuts lines and puts the indentation back: every line starts
      with the indentation, and joining the first line with the unindented
      continuation lines gives back the text the loop started from. */
  lemma {:induction false} WrapLoopRejoins(indent: string, longStr: string, length: int, max: nat)
    requires ',' !in indent && indent <= longStr
    requires length > 0 && WrapLoop(indent, longStr, length, max).Some?
    ensures var lines := WrapLoop(indent, longStr, length, max).value;
            |lines| >= 1 && indent <= lines[0] && Rejoin(indent, lines) == longStr
    decreases length
  {
    if length > max {
      WrapLoopStep(indent, longStr, length, max);
      var idx := CutIndex(longStr, max);
      CommaAfterIndent(indent, longStr, max);
      var next := indent + longStr[idx + 1..];
      WrapLoopRejoins(indent, next, length - (idx + 1), max);
      var rest := WrapLoop(indent, next, length - (idx + 1), max).value;
      RejoinCons(indent, longStr[..idx + 1], rest);
      assert next[|indent|..] == longStr[idx + 1..];
      assert longStr[..idx + 1] + longStr[idx + 1..] == longStr;
      PrefixOfPrefix(indent, longStr, idx + 1);
    }
  }

  /** Rejoining a first line in front of lines that start with the
      indentation drops that indentation once. */
  lemma RejoinCons(indent: string, first: string, rest: seq<string>)
    requires |rest| >= 1 && indent <= rest[0]
    ensures Rejoin(indent, [first] + rest) == first + Rejoin(indent, rest)[|indent|..]
  {
    var lines := [first] + rest;
    assert lines[1..] == rest;
    assert lines[0] == first;
    assert UnindentAll(indent, rest) == Unindent(indent, rest[0]) + UnindentAll(indent, rest[1..]);
    assert (rest[0] + UnindentAll(indent, rest[1..]))[|indent|..] == rest[0][|indent|..] + UnindentAll(indent, rest[1..]);
  }

  lemma PrefixOfPrefix(indent: string, s: string, n: nat)
    requires indent <= s && |indent| <= n <= |s|
    ensures indent <= s[..n]
  {
  }

  /** Round trip of `long_str_append`: rejoining what it appends gives
      `TAB*level + "{" + s + "}" + ","`. */
  lemma WrapRoundTrip(indent: string, s: string, max: nat)
    requires ',' !in indent && Wrap(indent, s, max).Some?
    ensures |Wrap(indent, s, max).value| >= 1
    ensures Rejoin(indent, Wrap(indent, s, max).value) == LongStr(indent, s)
    ensures forall j :: 0 <= j < |Wrap(indent, s, max).value| ==> indent <= Wrap(indent, s, max).value[j]
  {
    WrapLoopRejoins(indent, LongStr(indent, s), |LongStr(indent, s)|, max);
    WrapLoopIndented(indent, LongStr(indent, s), |LongStr(indent, s)|, max);
  }

  /** Every appended line starts with the indentation. */
  lemma {:induction false} WrapLoopIndented(indent: string, longStr: string, length: int, max: nat)
    requires ',' !in indent && indent <= longStr
    requires WrapLoop(indent, longStr, length, max).Some?
    ensures var lines := WrapLoop(indent, longStr, length, max).value;
            forall j :: 0 <= j < |lines| ==> indent <= lines[j]
    decreases if length > 0 then length else 0
  {
    if length > 0 && length > max {
      var idx := CutIndex(longStr, max);
      CommaAfterIndent(indent, longStr, max);
      var next := indent + longStr[idx + 1..];
      WrapLoopIndented(indent, next, length - (idx + 1), max);
      var rest := WrapLoop(indent, next, length - (idx + 1), max).value;
      assert WrapLoop(indent, longStr, length, max).value == [longStr[..idx + 1]] + rest;
      assert indent <= longStr[..idx + 1];
    }
  }

  /** Every line the loop cuts off (all but the last) fits in MAX characters
      and ends with a comma. */
  lemma {:induction false} WrapLoopCutLines(indent: string, longStr: string, length: int, max: nat)
    requires WrapLoop(indent, longStr, length, max).Some?
    ensures var lines := WrapLoop(indent, longStr, length, max).value;
            forall j :: 0 <= j < |lines| - 1 ==> 0 < |lines[j]| <= max && lines[j][|lines[j]| - 1] == ','
    decreases if length > 0 then length else 0
  {
    if length > 0 && length > max {
      WrapLoopStep(indent, longStr, length, max);
      var idx := CutIndex(longStr, max);
      WrapLoopCutLines(indent, indent + longStr[idx + 1..], length - (idx + 1), max);
    }
  }

  /** The last line exceeds MAX by at most the indentation put back at each
      cut, plus whatever the counter already lagged behind (`slack`). */
  lemma {:induction false} WrapLoopLastLine(indent: string, longStr: string, length: int, max: nat, slack: int)
    requires length > 0 && |longStr| == length + slack
    requires WrapLoop(indent, longStr, length, max).Some?
    ensures var lines := WrapLoop(indent, longStr, length, max).value;
            |lines| >= 1 && |lines[|lines| - 1]| <= max + slack + Times(|lines| - 1, |indent|)
    decreases length
  {
    if length > max {
      WrapLoopStep(indent, longStr, length, max);
      var idx := CutIndex(longStr, max);
      var next := indent + longStr[idx + 1..];
      WrapLoopLastLine(indent, next, length - (idx + 1), max, slack + |indent|);
    }
  }

  /** `a * b`, by repeated addition, so that the bound above stays linear. */
  function Times(a: nat, b: nat): nat
  {
    if a == 0 then 0 else Times(a - 1, b) + b
  }

  lemma {:induction false} TimesIsProduct(a: nat, b: nat)
    ensures Times(a, b) == a * b
  {
    if a > 0 {
      TimesIsProduct(a - 1, b);
      assert (a - 1) * b + b == a * b;
    }
  }

  /** The lines of `long_str_append`: all but the last fit in MAX characters
      and end with a comma; the last one can be longer than MAX by the
      indentation put back at each cut. */
  lemma WrapWidths(indent: string, s: string, max: nat)
    requires Wrap(indent, s, max).Some?
    ensures var lines := Wrap(indent, s, max).value;
            && |lines| >= 1
            && (forall j :: 0 <= j < |lines| - 1 ==> 0 < |lines[j]| <= max && lines[j][|lines[j]| - 1] == ',')
            && |lines[|lines| - 1]| <= max + (|lines| - 1) * |indent|
  {
    var l := LongStr(indent, s);
    WrapLoopCutLines(indent, l, |l|, max);
    WrapLoopLastLine(indent, l, |l|, max, 0);
    TimesIsProduct(|Wrap(indent, s, max).value| - 1, |indent|);
  }

  /** The last line of a wrapped list can be longer than MAX: with an
      indentation of two spaces and MAX 5, "1, 2" becomes "  {1," and
      "   2},", six characters. */
  lemma LastLineCanExceedWidth()
    ensures Wrap("  ", "1, 2", 5) == Some(["  {1,", "   2},"])
    ensures |"   2},"| > 5
  {
    var l := LongStr("  ", "1, 2");
    assert l == "  {1, 2},";
    assert Window(l, 5) == "  {1,";
    assert RFind("  {1,", ',') == 4;
    assert CutIndex(l, 5) == 4;
    assert l[..5] == "  {1,";
    assert "  " + l[5..] == "   2},";
    assert WrapLoop("  ", "   2},", 4, 5) == Some(["   2},"]);
    assert WrapLoop("  ", l, 9, 5) == Prepend("  {1,", WrapLoop("  ", "   2},", 4, 5));
    assert ["  {1,"] + ["   2},"] == ["  {1,", "   2},"];
    assert |l| == 9 && Wrap("  ", "1, 2", 5) == WrapLoop("  ", l, 9, 5);
  }

  /** When a window has no comma, the state the loop moves to (the same
      counter, the indentation put in front once more) has a window without a
      comma too: None stands for a loop that never ends. */
  lemma NoCommaWindowPersists(indent: string, longStr: string, max: nat)
    requires ',' !in indent
    requires CutIndex(longStr, max) < 0
    ensures CutIndex(indent + longStr, max) < 0
  {
    var n := if max <= |longStr| then max else |longStr|;
    var l := indent + longStr;
    var n' := if max <= |l| then max else |l|;
    LastCommaNone(longStr, n);
    LastCommaNone(l, n');
    forall i | 0 <= i < n'
      ensures l[i] != ','
    {
      if i >= |indent| {
        assert l[i] == longStr[i - |indent|];
      } else {
        assert l[i] == indent[i];
      }
    }
  }

  /** A value without commas is emitted on one line when it fits, and makes
      the loop run for ever when it does not: the only comma is the final one,
      outside every window. */
  lemma NoCommaValue(indent: string, s: string, max: nat)
    requires ',' !in indent && ',' !in s
    ensures Wrap(indent, s, max).Some? <==> |LongStr(indent, s)| <= max
    ensures |LongStr(indent, s)| <= max ==> Wrap(indent, s, max) == Some([LongStr(indent, s)])
  {
    var l := LongStr(indent, s);
    if |l| > max {
      LastCommaNone(l, max);
      forall i | 0 <= i < max
        ensures l[i] != ','
      {
        if i < |indent| {
          assert l[i] == indent[i];
        } else if i == |indent| {
          assert l[i] == '{';
        } else if i < |indent| + 1 + |s| {
          assert l[i] == s[i - |indent| - 1];
        } else {
          assert l[i] == '}';
        }
      }
    }
  }
}
