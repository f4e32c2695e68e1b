/** The brace depth of the buffer `StructGen` builds
    (tools/pqtools_to_code/pqtools_to_code.py:201-329): the number of '{'
    minus the number of '}' in its lines, and how it stays tied to the depth
    `level` the emitter keeps.

    Every line `StructGen` writes is brace-free except the header, which ends
    in '{', the opening lines `TAB*d + "{"`, the closing lines `TAB*d + "}"`
    and `TAB*d + "},"`, and the two braces around a matrix.  A closing step
    drops the last character of the line that is last at that point, which is
    meant to be the comma of the previous initializer.  When that line is an
    opening line instead, the '{' is dropped and the count falls one behind
    the depth: a suppressed bit field (a removed scalar emits no line) right
    after an opening brace shows it.  The add model keeps that behaviour; the
    end of this module proves a closing step that drops only a comma.
 */
module BraceBalance {
  import opened Outcomes
  import opened PyStr
  import opened DataStruct
  import opened Braces
  import opened LineWrap
  import opened StructGenSpec
  import PQtoolsToCode

  // ---------------------------------------------------------------------------
  // Counting braces
  // ---------------------------------------------------------------------------

  function BraceValue(c: char): int
  {
    if c == '{' then 1 else if c == '}' then -1 else 0
  }

  /** The number of '{' in `s` minus the number of '}'. */
  function Net(s: string): int
  {
    if |s| == 0 then 0 else BraceValue(s[0]) + Net(s[1..])
  }

  /** The same count over a list of lines. */
  function NetAll(lines: seq<string>): int
  {
    if |lines| == 0 then 0 else Net(lines[0]) + NetAll(lines[1..])
  }

  predicate BraceFree(s: string)
  {
    '{' !in s && '}' !in s
  }

  /** The last line is there and ends with a comma. */
  predicate EndsInComma(lines: seq<string>)
  {
    |lines| >= 1 && |lines[|lines| - 1]| >= 1 && lines[|lines| - 1][|lines[|lines| - 1]| - 1] == ','
  }

  lemma {:induction false} NetAppend(a: string, b: string)
    ensures Net(a + b) == Net(a) + Net(b)
  {
    if |a| == 0 {
      assert a + b == b;
    } else {
      assert (a + b)[1..] == a[1..] + b;
      NetAppend(a[1..], b);
    }
  }

  lemma {:induction false} NetFree(s: string)
    requires BraceFree(s)
    ensures Net(s) == 0
  {
    if |s| > 0 {
      assert forall i :: 0 <= i < |s| - 1 ==> s[1..][i] == s[i + 1];
      NetFree(s[1..]);
    }
  }

  lemma {:induction false} NetAllAppend(a: seq<string>, b: seq<string>)
    ensures NetAll(a + b) == NetAll(a) + NetAll(b)
  {
    if |a| == 0 {
      assert a + b == b;
    } else {
      assert (a + b)[1..] == a[1..] + b;
      NetAllAppend(a[1..], b);
    }
  }

  /** A non-empty list is its front followed by its last element. */
  lemma FrontLast<T>(s: seq<T>)
    requires |s| >= 1
    ensures s == s[..|s| - 1] + [s[|s| - 1]]
  {
  }

  lemma NetAllSnoc(a: seq<string>, x: string)
    ensures NetAll(a + [x]) == NetAll(a) + Net(x)
  {
    NetAllAppend(a, [x]);
    assert [x][1..] == [];
  }

  /** The counts of the short literals the emitter writes. */
  lemma LiteralNets()
    ensures Net("{") == 1 && Net("}") == -1 && Net("},") == -1 && Net("};") == -1 && Net(",") == 0
  {
    assert "{"[1..] == "" && "}"[1..] == "" && ","[1..] == "";
    assert "},"[1..] == "," && "};"[1..] == ";" && ";"[1..] == "";
  }

  /** Dropping a final comma keeps the count. */
  lemma NetDropComma(s: string)
    requires |s| >= 1 && s[|s| - 1] == ','
    ensures Net(DropLast(s)) == Net(s)
  {
    NetAppend(DropLast(s), [',']);
    LiteralNets();
  }

  lemma IndentFree(tab: string, level: nat)
    requires BraceFree(tab)
    ensures BraceFree(Indent(tab, level))
  {
  }

  /** An indented line counts what follows the indentation. */
  lemma IndentedNet(tab: string, level: nat, s: string)
    requires BraceFree(tab)
    ensures Net(Indent(tab, level) + s) == Net(s)
  {
    IndentFree(tab, level);
    NetFree(Indent(tab, level));
    NetAppend(Indent(tab, level), s);
  }

  lemma TabFree(cfg: Config)
    ensures BraceFree(Tab(cfg))
    ensures forall level: nat {:trigger Ind(cfg, level)} :: BraceFree(Ind(cfg, level))
  {
    forall level: nat
      ensures BraceFree(Ind(cfg, level))
    {
      IndentFree(Tab(cfg), level);
    }
  }

  // ---------------------------------------------------------------------------
  // change_key (:201-213)
  // ---------------------------------------------------------------------------

  /** The opening loop adds one to the count per line. */
  lemma {:induction false} OpenLinesNet(tab: string, lo: nat, hi: nat)
    requires BraceFree(tab)
    ensures NetAll(OpenLines(tab, lo, hi)) == if lo < hi then hi - lo else 0
    decreases hi - lo
  {
    if lo < hi {
      var r := OpenLines(tab, lo, hi);
      assert r == [Indent(tab, lo) + "{"] + OpenLines(tab, lo + 1, hi);
      assert r[1..] == OpenLines(tab, lo + 1, hi);
      OpenLinesNet(tab, lo + 1, hi);
      IndentedNet(tab, lo, "{");
      LiteralNets();
    }
  }

  /** Every closing line takes one off the count. */
  lemma {:induction false} ClosingRunNet(tab: string, level: nat, key: nat)
    requires BraceFree(tab) && key < level
    ensures NetAll(ClosingRun(tab, level, key)) == key - level
    decreases level
  {
    LiteralNets();
    var r := ClosingRun(tab, level, key);
    if level - 1 == key {
      IndentedNet(tab, key, "},");
      assert r[1..] == [];
    } else {
      IndentedNet(tab, level - 1, "}");
      assert r[1..] == ClosingRun(tab, level - 1, key);
      ClosingRunNet(tab, level - 1, key);
    }
  }

  /** The closing loop takes one off the count per level it closes, provided
      the character it drops from the last line is a comma. */
  lemma CloseLinesNet(data: seq<string>, tab: string, level: nat, key: nat)
    requires BraceFree(tab) && |data| >= 1 && key < level && EndsInComma(data)
    ensures NetAll(CloseLines(data, tab, level, key)) == NetAll(data) + key - level
  {
    var m := |data|;
    CloseLinesStructure(data, tab, level, key);
    FrontLast(data);
    NetAllSnoc(data[..m - 1], data[m - 1]);
    NetAllSnoc(data[..m - 1], DropLast(data[m - 1]));
    NetAllAppend(data[..m - 1] + [DropLast(data[m - 1])], ClosingRun(tab, level, key));
    NetDropComma(data[m - 1]);
    ClosingRunNet(tab, level, key);
  }

  /** `change_key(key)` moves the count by `key - level` whenever it has no
      closing to do or the last line ends in a comma. */
  lemma ChangeKeyNet(data: seq<string>, tab: string, level: nat, key: nat)
    requires BraceFree(tab) && |data| >= 1
    requires key < level ==> EndsInComma(data)
    ensures NetAll(ChangeKeyData(data, tab, level, key)) == NetAll(data) + key - level
  {
    if level < key {
      NetAllAppend(data, OpenLines(tab, level, key));
      OpenLinesNet(tab, level, key);
    } else if key < level {
      CloseLinesNet(data, tab, level, key);
    }
  }

  /** After a closing `change_key`, the last line is `TAB*key + "},"`. */
  lemma ChangeKeyEndsInComma(data: seq<string>, tab: string, level: nat, key: nat)
    requires |data| >= 1 && key < level
    ensures EndsInComma(ChangeKeyData(data, tab, level, key))
  {
    CloseLinesShape(data, tab, level, key);
  }

  // ---------------------------------------------------------------------------
  // long_str_append (:297-316)
  // ---------------------------------------------------------------------------

  /** The lines of the wrapping loop together count what the text counts,
      and the last one ends in the text's final comma.  The counter stays
      positive and at most the length of the text, so every cut leaves a
      non-empty rest. */
  lemma {:induction false} WrapLoopNet(indent: string, longStr: string, length: int, max: nat)
    requires BraceFree(indent) && 0 < length <= |longStr| && longStr[|longStr| - 1] == ','
    requires WrapLoop(indent, longStr, length, max).Some?
    ensures NetAll(WrapLoop(indent, longStr, length, max).value) == Net(longStr)
    ensures EndsInComma(WrapLoop(indent, longStr, length, max).value)
    decreases length
  {
    var lines := WrapLoop(indent, longStr, length, max).value;
    if length <= max {
      assert lines == [longStr];
      NetAllSnoc([], longStr);
    } else {
      WrapLoopStep(indent, longStr, length, max);
      var idx := CutIndex(longStr, max);
      assert 0 <= idx < max < length;
      var tail := longStr[idx + 1..];
      var rest := indent + tail;
      var restLines := WrapLoop(indent, rest, length - (idx + 1), max).value;
      assert lines == [longStr[..idx + 1]] + restLines;
      assert NetAll(restLines) == Net(rest) && EndsInComma(restLines) by {
        assert |tail| >= 1 && tail[|tail| - 1] == ',';
        WrapLoopNet(indent, rest, length - (idx + 1), max);
      }
      CutNet(indent, longStr, idx);
      ConsKeepsComma(longStr[..idx + 1], restLines);
    }
  }

  /** A line in front of lines that end in a comma: the counts add, and the
      last line is still the one that ends in a comma. */
  lemma ConsKeepsComma(line: string, rest: seq<string>)
    requires EndsInComma(rest)
    ensures NetAll([line] + rest) == Net(line) + NetAll(rest) && EndsInComma([line] + rest)
  {
    NetAllCons(line, rest);
    assert ([line] + rest)[|rest|] == rest[|rest| - 1];
  }

  /** A cut keeps the count: the piece and the rest with the indentation put
      back count what the text counts. */
  lemma CutNet(indent: string, longStr: string, idx: nat)
    requires BraceFree(indent) && idx < |longStr|
    ensures Net(longStr[..idx + 1]) + Net(indent + longStr[idx + 1..]) == Net(longStr)
  {
    assert longStr == longStr[..idx + 1] + longStr[idx + 1..];
    NetAppend(longStr[..idx + 1], longStr[idx + 1..]);
    NetFree(indent);
    NetAppend(indent, longStr[idx + 1..]);
  }

  /** `long_str_append` of a brace-free text: the braces it adds balance, and
      the last line ends in the comma after the closing brace. */
  lemma WrapNet(indent: string, s: string, max: nat)
    requires BraceFree(indent) && BraceFree(s)
    requires Wrap(indent, s, max).Some?
    ensures NetAll(Wrap(indent, s, max).value) == 0
    ensures EndsInComma(Wrap(indent, s, max).value)
  {
    var t := LongStr(indent, s);
    LiteralNets();
    NetFree(indent);
    NetFree(s);
    NetAppend(indent + "{" + s + "}", ",");
    NetAppend(indent + "{" + s, "}");
    NetAppend(indent + "{", s);
    NetAppend(indent, "{");
    WrapLoopNet(indent, t, |t|, max);
  }

  lemma {:induction false} SplitFree(s: string, c: char)
    requires BraceFree(s)
    ensures forall i :: 0 <= i < |Split(s, c)| ==> BraceFree(Split(s, c)[i])
    decreases |s|
  {
    if |s| > 0 {
      assert forall i :: 0 <= i < |s| - 1 ==> s[1..][i] == s[i + 1];
      SplitFree(s[1..], c);
    }
  }

  lemma {:induction false} JoinFree(sep: string, parts: seq<string>)
    requires BraceFree(sep) && forall i :: 0 <= i < |parts| ==> BraceFree(parts[i])
    ensures BraceFree(Join(sep, parts))
  {
    if |parts| > 1 {
      JoinFree(sep, parts[1..]);
    }
  }

  // ---------------------------------------------------------------------------
  // The lines of one value (:254-295)
  // ---------------------------------------------------------------------------

  /** The value emits no line at all: a scalar of a member with BITS whose
      name is the one to remove. */
  predicate Suppressed(cfg: Config, schema: Schema, name: seq<string>, value: string)
    requires |name| >= 1
  {
    && ',' !in value
    && MemberBit(schema, name).Hit? && |MemberBit(schema, name).value| > 0
    && name[|name| - 1] == cfg.needRemoveItem
  }

  lemma {:induction false} RowLinesNet(cfg: Config, level: nat, num: seq<string>, col: nat, k: nat)
    requires forall i :: 0 <= i < |num| ==> BraceFree(num[i])
    requires RowLines(cfg, level, num, col, k).Some?
    ensures NetAll(RowLines(cfg, level, num, col, k).value) == 0
  {
    if k > 0 {
      RowLinesNet(cfg, level, num, col, k - 1);
      var prev := RowLines(cfg, level, num, col, k - 1).value;
      var text := Join(", ", RowValues(num, col, k - 1));
      RowTextFree(num, col, k - 1);
      var ind := Ind(cfg, level);
      IndFree(cfg, level);
      WrapNet(ind, text, cfg.maxChars);
      var rows := Wrap(ind, text, cfg.maxChars).value;
      assert RowLines(cfg, level, num, col, k).value == prev + rows;
      NetAllAppend(prev, rows);
    }
  }

  /** The text of one row of brace-free values has no brace. */
  lemma RowTextFree(num: seq<string>, col: nat, i: nat)
    requires forall j :: 0 <= j < |num| ==> BraceFree(num[j])
    ensures BraceFree(Join(", ", RowValues(num, col, i)))
  {
    var row := RowValues(num, col, i);
    assert forall j :: 0 <= j < |row| ==> BraceFree(row[j]) by {
      forall j | 0 <= j < |row|
        ensures BraceFree(row[j])
      {
        assert row[j] == num[i * col + j];
      }
    }
    JoinFree(", ", row);
  }

  lemma IndFree(cfg: Config, level: nat)
    ensures BraceFree(Ind(cfg, level))
  {
    TabFree(cfg);
  }

  /** The lines of a brace-free value balance, end in a comma unless there
      are none, and there are none exactly when the value is suppressed. */
  lemma ValueLinesBraces(cfg: Config, schema: Schema, level: nat, name: seq<string>, value: string)
    requires |name| >= 1 && BraceFree(value) && BraceFree(name[|name| - 1])
    requires ValueLines(cfg, schema, level, name, value).Next?
    ensures var v := ValueLines(cfg, schema, level, name, value).value;
            && NetAll(v) == 0
            && (v != [] ==> EndsInComma(v))
            && (v == [] <==> Suppressed(cfg, schema, name, value))
  {
    if ',' !in value {
      ScalarBraces(cfg, schema, level, name, value);
    } else {
      ArrayBraces(cfg, schema, level, name, value);
    }
  }

  lemma ScalarBraces(cfg: Config, schema: Schema, level: nat, name: seq<string>, value: string)
    requires |name| >= 1 && BraceFree(value) && BraceFree(name[|name| - 1]) && ',' !in value
    requires ScalarLines(cfg, schema, level, name, value).Next?
    ensures var v := ScalarLines(cfg, schema, level, name, value).value;
            && NetAll(v) == 0
            && (v != [] ==> EndsInComma(v))
            && (v == [] <==> Suppressed(cfg, schema, name, value))
  {
    var v := ScalarLines(cfg, schema, level, name, value).value;
    var comment := Comment(cfg, level, name);
    TabFree(cfg);
    if v != [] {
      var line := v[1];
      assert v == [comment] + [line];
      assert BraceFree(comment) && BraceFree(line);
      NetFree(comment);
      NetFree(line);
      NetAllSnoc([comment], line);
      assert [comment][1..] == [];
    }
  }

  lemma ArrayBraces(cfg: Config, schema: Schema, level: nat, name: seq<string>, value: string)
    requires |name| >= 1 && BraceFree(value) && BraceFree(name[|name| - 1]) && ',' in value
    requires ArrayLines(cfg, schema, level, name, value).Next?
    ensures var v := ArrayLines(cfg, schema, level, name, value).value;
            && NetAll(v) == 0 && EndsInComma(v)
  {
    var comment := Comment(cfg, level, name);
    assert BraceFree(comment) by {
      IndFree(cfg, level);
    }
    var num := Split(value, ',');
    SplitFree(value, ',');
    var ms := MemberCount(schema, name);
    if ms.Miss? || ms.value.row == 1 {
      ListNet(cfg, level, comment, num);
    } else {
      MatrixNet(cfg, level, comment, num, ms.value.col, ms.value.row);
    }
  }

  /** A list value: the comment, then the wrapped items. */
  lemma ListNet(cfg: Config, level: nat, comment: string, num: seq<string>)
    requires BraceFree(comment) && forall i :: 0 <= i < |num| ==> BraceFree(num[i])
    requires ListLines(cfg, level, comment, num).Next?
    ensures var v := ListLines(cfg, level, comment, num).value;
            && NetAll(v) == 0 && EndsInComma(v)
  {
    var ind := Ind(cfg, level);
    var text := Join(", ", num);
    JoinFree(", ", num);
    IndFree(cfg, level);
    WrapNet(ind, text, cfg.maxChars);
    NetFree(comment);
    ConsKeepsComma(comment, Wrap(ind, text, cfg.maxChars).value);
  }

  /** A matrix value: the comment, `{`, the rows one level deeper, `},`. */
  lemma MatrixNet(cfg: Config, level: nat, comment: string, num: seq<string>, col: nat, row: nat)
    requires BraceFree(comment) && forall i :: 0 <= i < |num| ==> BraceFree(num[i])
    requires MatrixLines(cfg, level, comment, num, col, row).Next?
    ensures var v := MatrixLines(cfg, level, comment, num, col, row).value;
            && NetAll(v) == 0 && EndsInComma(v)
  {
    var ind := Ind(cfg, level);
    var rows := RowLines(cfg, level + 1, num, col, row).value;
    var framed := [comment, ind + "{"] + rows + [ind + "},"];
    assert MatrixLines(cfg, level, comment, num, col, row).value == framed;
    assert NetAll(framed) == 0 && EndsInComma(framed) by {
      RowLinesNet(cfg, level + 1, num, col, row);
      NetFree(comment);
      IndFree(cfg, level);
      IndentedNet(Tab(cfg), level, "{");
      IndentedNet(Tab(cfg), level, "},");
      LiteralNets();
      FramedNet(comment, ind + "{", rows, ind + "},");
    }
  }

  /** The lines of a matrix value, counted. */
  lemma FramedNet(comment: string, open: string, rows: seq<string>, close: string)
    requires Net(comment) == 0 && Net(open) == 1 && NetAll(rows) == 0 && Net(close) == -1
    requires |close| >= 1 && close[|close| - 1] == ','
    ensures NetAll([comment, open] + rows + [close]) == 0
    ensures EndsInComma([comment, open] + rows + [close])
  {
    var top := [comment, open];
    NetAllSnoc(top + rows, close);
    NetAllAppend(top, rows);
    NetAllCons(comment, [open]);
    NetAllCons(open, []);
    assert top == [comment] + [open];
    assert [open] == [open] + [];
  }

  // ---------------------------------------------------------------------------
  // The header (:174-199)
  // ---------------------------------------------------------------------------

  lemma {:induction false} CamelRefFree(s: string, atStart: bool)
    requires BraceFree(s)
    ensures BraceFree(CamelRef(s, atStart))
    decreases |s|
  {
    if |s| > 0 {
      assert forall i :: 0 <= i < |s| - 1 ==> s[1..][i] == s[i + 1];
      CamelRefFree(s[1..], true);
      CamelRefFree(s[1..], false);
    }
  }

  lemma CapitalizeFree(s: string)
    requires BraceFree(s)
    ensures BraceFree(Capitalize(s))
  {
    var r := Capitalize(s);
    forall i | 0 <= i < |r|
      ensures r[i] != '{' && r[i] != '}'
    {
      assert s[i] in s;
    }
  }

  /** With a brace-free struct name and product ID, the header opens one brace. */
  lemma HeaderNet(cfg: Config, structName: string)
    requires BraceFree(structName) && BraceFree(cfg.productId)
    ensures Net(HeaderLine(cfg, structName)) == 1
  {
    InstanceFree(cfg, structName);
    DeclarationNet(cfg.isConst, structName, InstanceName(cfg, structName));
  }

  lemma InstanceFree(cfg: Config, structName: string)
    requires BraceFree(structName) && BraceFree(cfg.productId)
    ensures BraceFree(InstanceName(cfg, structName))
  {
    var camel := CamelCase(structName);
    CamelCaseIsCamelRef(structName);
    CamelRefFree(structName, true);
    CapitalizeFree(cfg.productId);
    var tail := DropLast(camel);
    forall i | 0 <= i < |tail|
      ensures tail[i] != '{' && tail[i] != '}'
    {
      assert tail[i] == camel[i];
      assert camel[i] in camel;
    }
  }

  lemma DeclarationNet(isConst: bool, structName: string, instance: string)
    requires BraceFree(structName) && BraceFree(instance)
    ensures Net(Declaration(isConst, structName, instance)) == 1
  {
    var pre := "static " + (if isConst then "const " else "") + "struct " + structName + " " + instance + " = ";
    assert Declaration(isConst, structName, instance) == pre + "{";
    assert BraceFree(pre);
    NetFree(pre);
    NetAppend(pre, "{");
    LiteralNets();
  }

  // ---------------------------------------------------------------------------
  // add (:215-295) and finish (:318-329)
  // ---------------------------------------------------------------------------

  /** The first add after the constructor leaves the count equal to the depth. */
  lemma FirstAddBalance(cfg: Config, schema: Schema, structName: string, name: seq<string>, value: string)
    requires |name| >= 1 && BraceFree(structName) && BraceFree(cfg.productId)
    requires BraceFree(value) && BraceFree(name[|name| - 1])
    requires AddStep(cfg, schema, InitGen(cfg, structName), name, value).Next?
    ensures var g := AddStep(cfg, schema, InitGen(cfg, structName), name, value).value;
            && NetAll(g.data) == g.level && g.level >= 1
            && (!Suppressed(cfg, schema, name, value) ==> EndsInComma(g.data))
  {
    var g0 := InitGen(cfg, structName);
    FirstAdd(cfg, schema, structName, name, value);
    AddStepNext(cfg, schema, g0, name, value);
    var k := TargetLevel(name);
    var v := ValueLines(cfg, schema, k, name, value).value;
    TabFree(cfg);
    HeaderNet(cfg, structName);
    OpenLinesNet(Tab(cfg), 1, k);
    ValueLinesBraces(cfg, schema, k, name, value);
    OpenedNet(HeaderLine(cfg, structName), OpenLines(Tab(cfg), 1, k), v, k);
  }

  /** The count of the header, the opening lines and the value lines. */
  lemma OpenedNet(h: string, opens: seq<string>, v: seq<string>, k: nat)
    requires Net(h) == 1 && k >= 1 && NetAll(opens) == k - 1 && NetAll(v) == 0
    ensures NetAll([h] + opens + v) == k
    ensures v != [] && EndsInComma(v) ==> EndsInComma([h] + opens + v)
  {
    NetAllAppend([h] + opens, v);
    NetAllAppend([h], opens);
    assert [h][1..] == [];
    if v != [] {
      var d := [h] + opens + v;
      assert d[|d| - 1] == v[|v| - 1];
    }
  }

  /** A later add keeps the count equal to the depth, provided its first
      `change_key` has no closing to do or finds a last line that ends in a
      comma; its buffer then ends in a comma unless the value is suppressed. */
  lemma AddKeepsBalance(cfg: Config, schema: Schema, g: Gen, name: seq<string>, value: string)
    requires |g.data| >= 1 && |name| >= 1 && g.line > 0
    requires NetAll(g.data) == g.level
    requires !(name <= g.oldName) && FirstTarget(g.oldName, name) < g.level ==> EndsInComma(g.data)
    requires BraceFree(value) && BraceFree(name[|name| - 1])
    requires AddStep(cfg, schema, g, name, value).Next?
    ensures var r := AddStep(cfg, schema, g, name, value).value;
            && NetAll(r.data) == r.level
            && (!Suppressed(cfg, schema, name, value) ==> EndsInComma(r.data))
  {
    AddShape(cfg, schema, g, name, value);
    AddStepNext(cfg, schema, g, name, value);
    FirstTargetWithinFinal(g.oldName, name);
    var tab := Tab(cfg);
    var k1 := FirstTarget(g.oldName, name);
    var k2 := TargetLevel(name);
    var d1 := ChangeKeyData(g.data, tab, g.level, k1);
    var opens := OpenLines(tab, k1, k2);
    var v := ValueLines(cfg, schema, k2, name, value).value;
    TabFree(cfg);
    ChangeKeyNet(g.data, tab, g.level, k1);
    OpenLinesNet(tab, k1, k2);
    NetAllAppend(d1, opens);
    NetAllAppend(d1 + opens, v);
    ValueLinesBraces(cfg, schema, k2, name, value);
    if v != [] {
      var d := d1 + opens + v;
      assert d[|d| - 1] == v[|v| - 1];
    }
  }

  /** `finish` balances a buffer whose count is its depth and whose last line
      ends in a comma. */
  lemma FinishBalanced(cfg: Config, g: Gen)
    requires |g.data| >= 1 && g.level > 0 && NetAll(g.data) == g.level && EndsInComma(g.data)
    ensures NetAll(FinishData(cfg, g)) == 0
  {
    var tab := Tab(cfg);
    var closed := ChangeKeyData(g.data, tab, g.level, 0);
    TabFree(cfg);
    ChangeKeyNet(g.data, tab, g.level, 0);
    CloseLinesShape(g.data, tab, g.level, 0);
    var n := |closed|;
    FrontLast(closed);
    NetAllSnoc(closed[..n - 1], closed[n - 1]);
    NetAllSnoc(closed[..n - 1], "};");
    IndentedNet(tab, 0, "},");
    LiteralNets();
  }

  /** A record the emitter takes without losing count: a path below the root,
      a brace-free value and last segment, and a value that is not suppressed. */
  predicate Clean(cfg: Config, schema: Schema, rec: PQtoolsToCode.Record)
  {
    var path := PQtoolsToCode.Path(rec);
    && |path| >= 2
    && BraceFree(rec.value) && BraceFree(path[|path| - 1])
    && !Suppressed(cfg, schema, path, rec.value)
  }

  /** Clean records keep the count equal to the depth and the last line
      ending in a comma. */
  lemma {:induction false} BuildKeepsBalance(cfg: Config, schema: Schema, g: Gen, recs: seq<PQtoolsToCode.Record>)
    requires |g.data| >= 1 && g.line > 0 && g.level >= 1
    requires NetAll(g.data) == g.level && EndsInComma(g.data)
    requires forall i :: 0 <= i < |recs| ==> Clean(cfg, schema, recs[i])
    requires PQtoolsToCode.Build(cfg, schema, g, recs).Next?
    ensures var r := PQtoolsToCode.Build(cfg, schema, g, recs).value;
            && r.level >= 1 && NetAll(r.data) == r.level && EndsInComma(r.data)
    decreases |recs|
  {
    if |recs| > 0 {
      var g2 := BuildCons(cfg, schema, g, recs);
      assert Clean(cfg, schema, recs[0]);
      CleanAdd(cfg, schema, g, recs[0]);
      var rest := recs[1..];
      assert forall i :: 0 <= i < |rest| ==> Clean(cfg, schema, rest[i]) by {
        forall i | 0 <= i < |rest|
          ensures Clean(cfg, schema, rest[i])
        {
          assert rest[i] == recs[i + 1];
        }
      }
      BuildKeepsBalance(cfg, schema, g2, rest);
    }
  }

  /** One turn of `Build`: the first record's add succeeds, and the rest of
      the records are added to its result. */
  lemma BuildCons(cfg: Config, schema: Schema, g: Gen, recs: seq<PQtoolsToCode.Record>) returns (g2: Gen)
    requires |g.data| >= 1 && |recs| >= 1
    requires PQtoolsToCode.Build(cfg, schema, g, recs).Next?
    ensures AddStep(cfg, schema, g, PQtoolsToCode.Path(recs[0]), recs[0].value) == Next(g2)
    ensures |g2.data| >= 1
    ensures PQtoolsToCode.Build(cfg, schema, g, recs) == PQtoolsToCode.Build(cfg, schema, g2, recs[1..])
  {
    g2 := AddStep(cfg, schema, g, PQtoolsToCode.Path(recs[0]), recs[0].value).value;
  }

  /** One clean record added to a balanced buffer. */
  lemma CleanAdd(cfg: Config, schema: Schema, g: Gen, rec: PQtoolsToCode.Record)
    requires |g.data| >= 1 && g.line > 0
    requires NetAll(g.data) == g.level && EndsInComma(g.data)
    requires Clean(cfg, schema, rec)
    requires AddStep(cfg, schema, g, PQtoolsToCode.Path(rec), rec.value).Next?
    ensures var r := AddStep(cfg, schema, g, PQtoolsToCode.Path(rec), rec.value).value;
            && |r.data| >= 1 && r.line > 0 && r.level >= 1 && NetAll(r.data) == r.level && EndsInComma(r.data)
  {
    AddKeepsBalance(cfg, schema, g, PQtoolsToCode.Path(rec), rec.value);
  }

  /** The first clean record added to a fresh `StructGen`. */
  lemma FirstCleanAdd(cfg: Config, schema: Schema, structName: string, rec: PQtoolsToCode.Record)
    requires BraceFree(structName) && BraceFree(cfg.productId)
    requires Clean(cfg, schema, rec)
    requires AddStep(cfg, schema, InitGen(cfg, structName), PQtoolsToCode.Path(rec), rec.value).Next?
    ensures var r := AddStep(cfg, schema, InitGen(cfg, structName), PQtoolsToCode.Path(rec), rec.value).value;
            && |r.data| >= 1 && r.line > 0 && r.level >= 1 && NetAll(r.data) == r.level && EndsInComma(r.data)
  {
    FirstAddBalance(cfg, schema, structName, PQtoolsToCode.Path(rec), rec.value);
  }

  /** A struct built from clean records by a fresh `StructGen` and then
      finished has as many '{' as '}'. */
  lemma StructBalanced(cfg: Config, schema: Schema, structName: string, recs: seq<PQtoolsToCode.Record>)
    requires |recs| >= 1 && BraceFree(structName) && BraceFree(cfg.productId)
    requires forall i :: 0 <= i < |recs| ==> Clean(cfg, schema, recs[i])
    requires PQtoolsToCode.Build(cfg, schema, InitGen(cfg, structName), recs).Next?
    ensures NetAll(FinishData(cfg, PQtoolsToCode.Build(cfg, schema, InitGen(cfg, structName), recs).value)) == 0
  {
    var g0 := InitGen(cfg, structName);
    var g1 := BuildCons(cfg, schema, g0, recs);
    assert Clean(cfg, schema, recs[0]);
    FirstCleanAdd(cfg, schema, structName, recs[0]);
    var rest := recs[1..];
    assert forall i :: 0 <= i < |rest| ==> Clean(cfg, schema, rest[i]) by {
      forall i | 0 <= i < |rest|
        ensures Clean(cfg, schema, rest[i])
      {
        assert rest[i] == recs[i + 1];
      }
    }
    BuildKeepsBalance(cfg, schema, g1, rest);
    FinishBalanced(cfg, PQtoolsToCode.Build(cfg, schema, g0, recs).value);
  }

  // ---------------------------------------------------------------------------
  // A suppressed bit field right after an opening brace
  // ---------------------------------------------------------------------------

  /** Tab width 1, no product ID, the member `rb` removed, a plain struct. */
  const WitnessConfig := Config(1, 100, "", "rb", false)

  /** `S { C c; HI_U8 d; }` and `C { HI_U8 rb : 1; }` */
  const WitnessSchema: Schema := [Struct("S", [Member("c", "C", "", ""), Member("d", "HI_U8", "", "")]),
                                  Struct("C", [Member("rb", "HI_U8", "1", "")])]

  lemma WitnessHeader()
    ensures HeaderLine(WitnessConfig, "S") == "static struct S g_ = {"
  {
    SplitWithoutSeparator("S", '_');
    assert CapitalizeAll(["S"]) == ["S"];
    assert Capitalize("") == "";
    DeclarationText("S", "g_");
  }

  lemma WitnessTab(cfg: Config)
    requires cfg == WitnessConfig
    ensures Tab(cfg) == " " && Ind(cfg, 0) == "" && Ind(cfg, 1) == " "
  {
    assert Spaces(1) == Spaces(0) + " ";
    assert Repeat(" ", 1) == Repeat(" ", 0) + " ";
  }

  /** `c.rb` has BITS "1"; `d` has none. */
  lemma WitnessLookups(schema: Schema)
    requires schema == WitnessSchema
    ensures MemberBit(schema, ["S", "c", "rb"]) == Hit("1")
    ensures MemberBit(schema, ["S", "d"]) == Hit("")
  {
    SplitWithoutSeparator("c", '[');
    SplitWithoutSeparator("rb", '[');
    SplitWithoutSeparator("d", '[');
    assert StructIndex(schema, "S") == Some(0);
    assert StructIndex(schema, "C") == Some(1);
    assert TypeAfter(schema[0].members, "c", "S") == "C";
    assert FirstMember(schema[1].members, "rb") == Some(schema[1].members[0]);
    assert FirstMember(schema[0].members, "d") == Some(schema[0].members[1]);
  }

  /** `S.c.rb` and `S.d` name no array, so their depths are 2 and 1. */
  lemma WitnessDepths(first: seq<string>, second: seq<string>)
    requires first == ["S", "c", "rb"] && second == ["S", "d"]
    ensures TargetLevel(first) == 2 && TargetLevel(second) == 1
    ensures !(second <= first) && FirstTarget(first, second) == 1
  {
    assert BracketsUpTo(first, 1) == 0;
    assert BracketsUpTo(first, 2) == 0;
    assert BracketsUpTo(first, 3) == 0;
    assert BracketsUpTo(second, 1) == 0;
    assert BracketsUpTo(second, 2) == 0;
    assert second[1] != first[1];
    DivergeIndexUnique(first, second, 1);
    assert RepeatsUpTo(first, second, 1) == 0;
    assert RepeatsUpTo(first, second, 2) == 0;
  }

  /** `S.c.rb = 0`: the bit field is suppressed, so the buffer ends with the
      opening brace of `c`. */
  lemma WitnessFirstAdd(cfg: Config, schema: Schema, name: seq<string>, h: string)
    requires cfg == WitnessConfig && schema == WitnessSchema && name == ["S", "c", "rb"] && h == HeaderLine(cfg, "S")
    ensures AddStep(cfg, schema, InitGen(cfg, "S"), name, "0") == Next(Gen([h, " {"], 2, name, 1))
  {
    WitnessLookups(schema);
    WitnessDepths(name, ["S", "d"]);
    assert ValueLines(cfg, schema, 2, name, "0") == Next([]);
    FirstAdd(cfg, schema, "S", name, "0");
    WitnessOpening(cfg);
    PairDisplay(h, " {");
  }

  lemma WitnessOpening(cfg: Config)
    requires cfg == WitnessConfig
    ensures OpenLines(Tab(cfg), 1, 2) == [" {"]
  {
    WitnessTab(cfg);
    var line := Indent(Tab(cfg), 1) + "{";
    assert line == " {";
  }

  lemma PairDisplay<T>(a: T, b: T)
    ensures [a] + [b] + [] == [a, b]
  {
  }

  /** Closing `c` drops the '{' of its opening line instead of a comma. */
  lemma WitnessClose(cfg: Config, h: string)
    requires cfg == WitnessConfig
    ensures ChangeKeyData([h, " {"], Tab(cfg), 2, 1) == [h, " ", " },"]
    ensures ChangeKeyData([h, " ", " },"], Tab(cfg), 1, 1) == [h, " ", " },"]
  {
    WitnessTab(cfg);
    var data := [h, " {"];
    var line := Indent(Tab(cfg), 1) + "},";
    assert line == " },";
    assert DropLast(" {") == " ";
    assert CloseStep(data, Tab(cfg), 1) == [h] + [" ", line];
    assert CloseLines(data, Tab(cfg), 2, 1) == CloseStep(data, Tab(cfg), 1);
  }

  lemma WitnessSecondValue(cfg: Config, schema: Schema, name: seq<string>)
    requires cfg == WitnessConfig && schema == WitnessSchema && name == ["S", "d"]
    ensures ValueLines(cfg, schema, 1, name, "5") == Next([" // d", " 5,"])
  {
    WitnessScalar(cfg, schema, name);
    WitnessSecondLines(cfg, name);
  }

  lemma WitnessScalar(cfg: Config, schema: Schema, name: seq<string>)
    requires cfg == WitnessConfig && schema == WitnessSchema && name == ["S", "d"]
    ensures ScalarLines(cfg, schema, 1, name, "5") == Next([Comment(cfg, 1, name), Ind(cfg, 1) + "5" + ","])
  {
    WitnessLookups(schema);
  }

  lemma WitnessSecondLines(cfg: Config, name: seq<string>)
    requires cfg == WitnessConfig && name == ["S", "d"]
    ensures Comment(cfg, 1, name) == " // d"
    ensures Ind(cfg, 1) + "5" + "," == " 5,"
  {
    WitnessTab(cfg);
  }

  /** `S.d = 5` next: the buffer keeps the line that lost its brace. */
  lemma WitnessSecondAdd(cfg: Config, schema: Schema, first: seq<string>, second: seq<string>, h: string)
    requires cfg == WitnessConfig && schema == WitnessSchema
    requires first == ["S", "c", "rb"] && second == ["S", "d"]
    ensures AddStep(cfg, schema, Gen([h, " {"], 2, first, 1), second, "5")
            == Next(Gen([h, " ", " },", " // d", " 5,"], 1, second, 2))
  {
    WitnessDepths(first, second);
    WitnessClose(cfg, h);
    WitnessSecondValue(cfg, schema, second);
    assert [h, " ", " },"] + [" // d", " 5,"] == [h, " ", " },", " // d", " 5,"];
  }

  /** `finish` on the witness buffer. */
  lemma WitnessFinish(cfg: Config, h: string)
    requires cfg == WitnessConfig
    ensures FinishData(cfg, Gen([h, " ", " },", " // d", " 5,"], 1, ["S", "d"], 2)) == [h, " ", " },", " // d", " 5", "};"]
  {
    WitnessTab(cfg);
    var d := [h, " ", " },", " // d", " 5,"];
    var line := Indent(Tab(cfg), 0) + "},";
    assert line == "},";
    assert DropLast(" 5,") == " 5";
    assert CloseStep(d, Tab(cfg), 0) == d[..4] + [" 5", line];
    var closed := ChangeKeyData(d, Tab(cfg), 1, 0);
    assert closed == d[..4] + [" 5", "},"];
    assert closed[..|closed| - 1] + ["};"] == [h, " ", " },", " // d", " 5", "};"];
  }

  /** The two adds and `finish` on the witness: after the adds the count is
      one less than the depth, and `finish` closes the struct with one '}'
      more than it has '{', because the brace that `c`'s opening line lost
      closes `S` early. */
  lemma SuppressedFieldUnbalances(cfg: Config, schema: Schema, first: seq<string>, second: seq<string>)
    requires cfg == WitnessConfig && schema == WitnessSchema
    requires first == ["S", "c", "rb"] && second == ["S", "d"]
    ensures var h := HeaderLine(cfg, "S");
            var g1 := Gen([h, " {"], 2, first, 1);
            var g2 := Gen([h, " ", " },", " // d", " 5,"], 1, second, 2);
            && AddStep(cfg, schema, InitGen(cfg, "S"), first, "0") == Next(g1)
            && AddStep(cfg, schema, g1, second, "5") == Next(g2)
            && NetAll(g1.data) == g1.level
            && NetAll(g2.data) == g2.level - 1
            && FinishData(cfg, g2) == [h, " ", " },", " // d", " 5", "};"]
            && NetAll(FinishData(cfg, g2)) == -1
  {
    var h := HeaderLine(cfg, "S");
    WitnessFirstAdd(cfg, schema, first, h);
    WitnessSecondAdd(cfg, schema, first, second, h);
    WitnessFinish(cfg, h);
    HeaderNet(cfg, "S");
    WitnessNets(h);
  }

  /** The counts of the witness buffers. */
  lemma WitnessNets(h: string)
    requires Net(h) == 1
    ensures NetAll([h, " {"]) == 2
    ensures NetAll([h, " ", " },", " // d", " 5,"]) == 0
    ensures NetAll([h, " ", " },", " // d", " 5", "};"]) == -1
  {
    WitnessFirstNet(h, " {");
    WitnessAddsNet(h, " ", " },", " // d", " 5,");
    WitnessFinishNet(h, " ", " },", " // d", " 5", "};");
  }

  lemma WitnessFirstNet(h: string, opening: string)
    requires Net(h) == 1 && opening == " {"
    ensures NetAll([h, opening]) == 2
  {
    LiteralNets();
    NetAppend(" ", "{");
    NetFree(" ");
    NetAllCons(h, [opening]);
    NetAllCons(opening, []);
  }

  lemma WitnessAddsNet(h: string, a: string, b: string, c: string, d: string)
    requires Net(h) == 1 && a == " " && b == " }," && c == " // d" && d == " 5,"
    ensures NetAll([h, a, b, c, d]) == 0
  {
    WitnessLineNets();
    NetAll5(h, a, b, c, d);
  }

  lemma WitnessFinishNet(h: string, a: string, b: string, c: string, d: string, e: string)
    requires Net(h) == 1 && a == " " && b == " }," && c == " // d" && d == " 5" && e == "};"
    ensures NetAll([h, a, b, c, d, e]) == -1
  {
    WitnessLineNets();
    NetAll5(a, b, c, d, e);
    NetAllCons(h, [a, b, c, d, e]);
    assert [h] + [a, b, c, d, e] == [h, a, b, c, d, e];
  }

  /** The counts of the lines of the witness buffers. */
  lemma WitnessLineNets()
    ensures Net(" ") == 0 && Net(" },") == -1 && Net(" // d") == 0 && Net(" 5,") == 0 && Net(" 5") == 0
    ensures Net("};") == -1
  {
    LiteralNets();
    NetAppend(" ", "},");
    NetFree(" ");
    NetFree(" // d");
    NetFree(" 5,");
    NetFree(" 5");
  }

  lemma NetAll5(a: string, b: string, c: string, d: string, e: string)
    ensures NetAll([a, b, c, d, e]) == Net(a) + Net(b) + Net(c) + Net(d) + Net(e)
  {
    NetAllCons(a, [b, c, d, e]);
    NetAllCons(b, [c, d, e]);
    NetAllCons(c, [d, e]);
    NetAllCons(d, [e]);
    NetAllCons(e, []);
    assert [a] + [b, c, d, e] == [a, b, c, d, e];
    assert [b] + [c, d, e] == [b, c, d, e];
    assert [c] + [d, e] == [c, d, e];
    assert [d] + [e] == [d, e];
    assert [e] + [] == [e];
  }

  lemma NetAllCons(x: string, rest: seq<string>)
    ensures NetAll([x] + rest) == Net(x) + NetAll(rest)
  {
    assert ([x] + rest)[1..] == rest;
  }

  // ---------------------------------------------------------------------------
  // A closing step that drops only a comma
  // ---------------------------------------------------------------------------

  /** `line[:-1]` when the line ends in a comma, the line itself otherwise. */
  function TrimComma(line: string): string
  {
    if |line| >= 1 && line[|line| - 1] == ',' then DropLast(line) else line
  }

  /** The corrected closing loop from depth `level` up to depth `key`, in
      closed form: each turn drops the last line's final character only when
      it is a comma. The first turn trims the line that was last before the
      closing; each later turn trims the comma of the closing line before it,
      so the closing run is the one the loop as written appends. */
  function CloseLinesFixed(data: seq<string>, tab: string, level: nat, key: nat): seq<string>
    requires |data| >= 1
  {
    if level <= key then data
    else data[..|data| - 1] + [TrimComma(data[|data| - 1])] + ClosingRun(tab, level, key)
  }

  lemma TrimCommaNet(line: string)
    ensures Net(TrimComma(line)) == Net(line)
  {
    if |line| >= 1 && line[|line| - 1] == ',' {
      NetDropComma(line);
    }
  }

  /** The corrected closing loop moves the count by `key - level` on every
      buffer: the count stays tied to the depth with no condition on the
      last line. */
  lemma CloseLinesFixedNet(data: seq<string>, tab: string, level: nat, key: nat)
    requires BraceFree(tab) && |data| >= 1 && key <= level
    ensures NetAll(CloseLinesFixed(data, tab, level, key)) == NetAll(data) + key - level
  {
    if key < level {
      var m := |data|;
      var pre := data[..m - 1];
      var last := data[m - 1];
      var run := ClosingRun(tab, level, key);
      assert NetAll(data) == NetAll(pre) + Net(last) by {
        FrontLast(data);
        NetAllSnoc(pre, last);
      }
      assert NetAll(pre + [TrimComma(last)] + run) == NetAll(pre) + Net(TrimComma(last)) + NetAll(run) by {
        NetAllAppend(pre + [TrimComma(last)], run);
        NetAllSnoc(pre, TrimComma(last));
      }
      TrimCommaNet(last);
      ClosingRunNet(tab, level, key);
      var closed := pre + [TrimComma(last)] + run;
      assert NetAll(closed) == NetAll(data) + key - level;
      assert CloseLinesFixed(data, tab, level, key) == closed;
    }
  }

  /** Where the last line ends in a comma the corrected loop is the loop as
      written. */
  lemma CloseLinesFixedAgrees(data: seq<string>, tab: string, level: nat, key: nat)
    requires |data| >= 1 && EndsInComma(data)
    ensures CloseLinesFixed(data, tab, level, key) == CloseLines(data, tab, level, key)
  {
    if key < level {
      CloseLinesStructure(data, tab, level, key);
    }
  }

  /** On the buffer of the witness the corrected step keeps the '{' of `c`. */
  lemma FixedKeepsOpeningBrace(cfg: Config, h: string)
    requires cfg == WitnessConfig
    ensures CloseLinesFixed([h, " {"], Tab(cfg), 2, 1) == [h, " {", " },"]
  {
    WitnessTab(cfg);
    var data := [h, " {"];
    var line := Indent(Tab(cfg), 1) + "},";
    assert line == " },";
    assert " {"[1] != ',';
    assert TrimComma(" {") == " {";
    assert ClosingRun(Tab(cfg), 2, 1) == [line];
    assert CloseLinesFixed(data, Tab(cfg), 2, 1) == data[..1] + [" {"] + [line];
  }
}
