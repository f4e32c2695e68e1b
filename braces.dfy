/** What `StructGen.change_key` does to the line buffer
    (tools/pqtools_to_code/pqtools_to_code.py:201-213), as functions on the
    buffer, with the closed forms of the lines it appends.

    Opening appends `TAB*level + "{"` and deepens by one, until the target.
    Closing first steps one level up, drops the last character of the line
    that is then last, and appends `TAB*level + "},"`; so every closing line
    but the final one loses its comma to the next closing step.
 */
module Braces {
  import opened PyStr

  /** `TAB*level` */
  function Indent(tab: string, level: nat): string
  {
    Repeat(tab, level)
  }

  /** The lines the opening loop appends going from depth `lo` to depth `hi`. */
  function OpenLines(tab: string, lo: nat, hi: nat): (r: seq<string>)
    ensures |r| == if lo < hi then hi - lo else 0
    ensures forall j :: 0 <= j < |r| ==> r[j] == Indent(tab, lo + j) + "{"
    decreases hi - lo
  {
    if lo >= hi then [] else [Indent(tab, lo) + "{"] + OpenLines(tab, lo + 1, hi)
  }

  /** One more turn of the opening loop appends one more line. */
  lemma OpenLinesSnoc(tab: string, lo: nat, hi: nat)
    requires lo <= hi
    ensures OpenLines(tab, lo, hi + 1) == OpenLines(tab, lo, hi) + [Indent(tab, hi) + "{"]
  {
    var a := OpenLines(tab, lo, hi + 1);
    var b := OpenLines(tab, lo, hi) + [Indent(tab, hi) + "{"];
    assert |a| == |b|;
    forall j | 0 <= j < |a|
      ensures a[j] == b[j]
    {
    }
  }

  /** One turn of the closing loop, arriving at depth `newLevel`. */
  function CloseStep(data: seq<string>, tab: string, newLevel: nat): (r: seq<string>)
    requires |data| >= 1
  {
    data[..|data| - 1] + [DropLast(data[|data| - 1]), Indent(tab, newLevel) + "},"]
  }

  /** The closing loop from depth `level` up to depth `key`. */
  function CloseLines(data: seq<string>, tab: string, level: nat, key: nat): (r: seq<string>)
    requires |data| >= 1
    decreases level
  {
    if level <= key then data else CloseLines(CloseStep(data, tab, level - 1), tab, level - 1, key)
  }

  /** Closed form of the closing loop: the earlier lines are kept, the last one
      loses its final character, then come `level - key` closing lines, all
      `TAB*d + "}"` except the last, which is `TAB*key + "},"`. */
  lemma CloseLinesShape(data: seq<string>, tab: string, level: nat, key: nat)
    requires |data| >= 1 && key < level
    ensures var r := CloseLines(data, tab, level, key);
            var m := |data|;
            var n := level - key;
            && |r| == m + n
            && r[..m - 1] == data[..m - 1]
            && r[m - 1] == DropLast(data[m - 1])
            && (forall j :: m <= j < m + n - 1 ==> r[j] == Indent(tab, level - 1 - (j - m)) + "}")
            && r[m + n - 1] == Indent(tab, key) + "},"
  {
    var m := |data|;
    var n := level - key;
    CloseLinesStructure(data, tab, level, key);
    ClosingRunShape(tab, level, key);
    var head := data[..m - 1] + [DropLast(data[m - 1])];
    var run := ClosingRun(tab, level, key);
    var r := CloseLines(data, tab, level, key);
    assert r == head + run;
    assert r[..m - 1] == head[..m - 1] == data[..m - 1];
    forall j | m <= j < m + n - 1
      ensures r[j] == Indent(tab, level - 1 - (j - m)) + "}"
    {
      assert r[j] == run[j - m];
    }
    assert r[m + n - 1] == run[n - 1];
  }

  /** The closing lines from depth `level` up to depth `key`, in order. */
  function ClosingRun(tab: string, level: nat, key: nat): (r: seq<string>)
    requires key < level
    decreases level
  {
    if level - 1 == key then [Indent(tab, key) + "},"]
    else [Indent(tab, level - 1) + "}"] + ClosingRun(tab, level - 1, key)
  }

  /** Every closing line is `TAB*d + "}"` for the depth `d` it arrives at,
      except the last, `TAB*key + "},"`. */
  lemma {:induction false} ClosingRunShape(tab: string, level: nat, key: nat)
    requires key < level
    ensures var r := ClosingRun(tab, level, key);
            && |r| == level - key
            && (forall i :: 0 <= i < |r| - 1 ==> r[i] == Indent(tab, level - 1 - i) + "}")
            && r[|r| - 1] == Indent(tab, key) + "},"
    decreases level
  {
    if level - 1 > key {
      ClosingRunShape(tab, level - 1, key);
      var r := ClosingRun(tab, level, key);
      var rest := ClosingRun(tab, level - 1, key);
      assert r == [Indent(tab, level - 1) + "}"] + rest;
      forall i | 1 <= i < |r| - 1
        ensures r[i] == Indent(tab, level - 1 - i) + "}"
      {
        assert r[i] == rest[i - 1];
        assert level - 1 - 1 - (i - 1) == level - 1 - i;
      }
    }
  }

  /** The closing loop keeps the lines before the last, drops the last
      character of the last one, and appends the closing run. */
  lemma {:induction false} CloseLinesStructure(data: seq<string>, tab: string, level: nat, key: nat)
    requires |data| >= 1 && key < level
    ensures var m := |data|;
            CloseLines(data, tab, level, key) == data[..m - 1] + [DropLast(data[m - 1])] + ClosingRun(tab, level, key)
    decreases level
  {
    var m := |data|;
    var d := CloseStep(data, tab, level - 1);
    if level - 1 > key {
      CloseLinesStructure(d, tab, level - 1, key);
      assert d[..m] == data[..m - 1] + [DropLast(data[m - 1])];
      assert DropLast(d[m]) == Indent(tab, level - 1) + "}" by {
        assert d[m] == (Indent(tab, level - 1) + "}") + [','];
      }
      var run := ClosingRun(tab, level - 1, key);
      AppendAssoc(data[..m - 1] + [DropLast(data[m - 1])], [Indent(tab, level - 1) + "}"], run);
    }
  }

  lemma AppendAssoc<T>(a: seq<T>, b: seq<T>, c: seq<T>)
    ensures (a + b) + c == a + (b + c)
  {
  }

  lemma {:induction false} CloseLinesLength(data: seq<string>, tab: string, level: nat, key: nat)
    requires |data| >= 1 && key <= level
    ensures |CloseLines(data, tab, level, key)| == |data| + level - key
    decreases level
  {
    if key < level {
      CloseLinesLength(CloseStep(data, tab, level - 1), tab, level - 1, key);
    }
  }

  /** `change_key(key)`: both loops, as they run one after the other. */
  function ChangeKeyData(data: seq<string>, tab: string, level: nat, key: nat): (r: seq<string>)
    requires |data| >= 1
    ensures |r| == |data| + (if level < key then key - level else level - key)
    ensures level <= key ==> r == data + OpenLines(tab, level, key)
    ensures key < level ==> r[..|data| - 1] == data[..|data| - 1]
  {
    if level < key then data + OpenLines(tab, level, key)
    else
      CloseLinesKeepsPrefix(data, tab, level, key);
      CloseLines(data, tab, level, key)
  }

  lemma CloseLinesKeepsPrefix(data: seq<string>, tab: string, level: nat, key: nat)
    requires |data| >= 1 && key <= level
    ensures |CloseLines(data, tab, level, key)| == |data| + level - key
    ensures CloseLines(data, tab, level, key)[..|data| - 1] == data[..|data| - 1]
  {
    CloseLinesLength(data, tab, level, key);
    if key < level {
      CloseLinesShape(data, tab, level, key);
    }
  }
}
