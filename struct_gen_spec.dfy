/** What the methods of `StructGen` (tools/pqtools_to_code/pqtools_to_code.py:173-329)
    compute, as functions on the emitter's state, with the properties the
    emitter promises.  The class in struct_gen.dfy is proved to follow these
    functions step by step.

    A `Gen` is the part of a `StructGen` that its methods change: the line
    buffer `data`, the brace depth `level`, the previous path `oldName` and
    the add counter `line`.  A `Config` holds the parameters the emitter
    reads: the tab width, the maximum line length, the product ID, the member
    name whose bit-field value is dropped, and whether the struct is `const`.
 */
module StructGenSpec {
  import opened Outcomes
  import opened PyStr
  import opened DataStruct
  import opened Braces
  import opened LineWrap

  datatype Config = Config(tabSpace: nat, maxChars: nat, productId: string, needRemoveItem: string, isConst: bool)

  datatype Gen = Gen(data: seq<string>, level: nat, oldName: seq<string>, line: nat)

  /** `TAB_SPACE`: `" " * tab_space` */
  function Tab(cfg: Config): string
  {
    Spaces(cfg.tabSpace)
  }

  /** `TAB_SPACE*level` */
  function Ind(cfg: Config, level: nat): string
  {
    Indent(Tab(cfg), level)
  }

  /** The indentation at depth `level` is `tab_space * level` blanks. */
  lemma IndIsSpaces(cfg: Config, level: nat)
    ensures Ind(cfg, level) == Spaces(cfg.tabSpace * level)
  {
    RepeatLength(Tab(cfg), level);
    var a := Ind(cfg, level);
    var b := Spaces(cfg.tabSpace * level);
    assert |a| == |b|;
    forall i | 0 <= i < |a|
      ensures a[i] == b[i]
    {
      assert a[i] in Tab(cfg);
    }
  }

  /** The indentation of a depth is a prefix of the indentation of every deeper one. */
  lemma IndPrefix(cfg: Config, level: nat, deeper: nat)
    requires level <= deeper
    ensures Ind(cfg, level) <= Ind(cfg, deeper)
    ensures ',' !in Ind(cfg, deeper)
  {
    IndIsSpaces(cfg, level);
    IndIsSpaces(cfg, deeper);
    assert cfg.tabSpace * level <= cfg.tabSpace * deeper;
  }

  // ---------------------------------------------------------------------
  // The constructor (:174-199)

  /** `self.name`: the root segment, renamed through `custom_define_dict`. */
  function StructName(root: string, renames: map<string, string>): string
  {
    if root in renames then renames[root] else root
  }

  /** The instance name: "g_", the capitalized product ID, then the name
      camel-cased at its underscores without its last character. */
  function InstanceName(cfg: Config, structName: string): string
  {
    "g_" + Capitalize(cfg.productId) + DropLast(CamelCase(structName))
  }

  /** The instance name starts with "g_" and the capitalized product ID; the
      rest has no underscore and is one character shorter than the struct
      name without its underscores (empty when that is empty). */
  lemma InstanceNameShape(cfg: Config, structName: string)
    ensures var r := InstanceName(cfg, structName);
            var p := 2 + |cfg.productId|;
            var n := |structName| - Count(structName, '_');
            && |r| == p + (if n > 0 then n - 1 else 0)
            && r[..p] == "g_" + Capitalize(cfg.productId)
            && '_' !in r[p..]
  {
    CamelCaseIsCamelRef(structName);
    var c := CamelCase(structName);
    var r := InstanceName(cfg, structName);
    var p := 2 + |cfg.productId|;
    assert r[p..] == DropLast(c);
    if |c| > 0 {
      assert forall i :: 0 <= i < |DropLast(c)| ==> DropLast(c)[i] == c[i];
    }
  }

  /** The first buffer line: the C declaration that opens the initializer. */
  function HeaderLine(cfg: Config, structName: string): string
  {
    Declaration(cfg.isConst, structName, InstanceName(cfg, structName))
  }

  function Declaration(isConst: bool, structName: string, instance: string): string
  {
    "static " + (if isConst then "const " else "") + "struct " + structName + " " + instance + " = {"
  }

  /** The header declares a `const` struct exactly when the parameter says so,
      and ends with the brace that opens the initializer. */
  lemma HeaderLineShape(cfg: Config, structName: string)
    ensures var r := HeaderLine(cfg, structName);
            && r[|r| - 1] == '{'
            && (cfg.isConst <==> "static const " <= r)
  {
    DeclarationShape(cfg.isConst, structName, InstanceName(cfg, structName));
  }

  lemma DeclarationShape(isConst: bool, structName: string, instance: string)
    ensures var r := Declaration(isConst, structName, instance);
            && r[|r| - 1] == '{'
            && (isConst <==> "static const " <= r)
  {
    var body := "struct " + structName + " " + instance;
    var r := Declaration(isConst, structName, instance);
    if isConst {
      assert r == "static const " + (body + " = {");
    } else {
      assert r == "static " + (body + " = {");
      assert r[7] == body[0] == 's';
    }
    assert r == ("static " + (if isConst then "const " else "") + body) + " = {";
  }

  /** The two literal forms of the declaration. */
  lemma DeclarationText(structName: string, instance: string)
    ensures Declaration(true, structName, instance) == "static const struct " + structName + " " + instance + " = {"
    ensures Declaration(false, structName, instance) == "static struct " + structName + " " + instance + " = {"
  {
    assert "static " + "const " + "struct " == "static const struct ";
    assert "static " + "" + "struct " == "static struct ";
  }

  /** The state right after the constructor: the header line, depth 0, no
      previous path, nothing added yet. */
  function InitGen(cfg: Config, structName: string): Gen
  {
    Gen([HeaderLine(cfg, structName)], 0, [], 0)
  }

  // ---------------------------------------------------------------------
  // The brace targets of `add` (:222-247)

  function Min(a: nat, b: nat): nat
  {
    if a <= b then a else b
  }

  /** The first loop of `add`: the first index where the new path leaves the
      old one.  It sets `key` only when the new path is not a prefix of the
      old one; otherwise Python raises UnboundLocalError. */
  function DivergeIndex(oldName: seq<string>, name: seq<string>): (k: nat)
    requires !(name <= oldName)
    ensures k < |name| && k <= |oldName|
    ensures name[..k] == oldName[..k]
    ensures k < |oldName| ==> name[k] != oldName[k]
    decreases |oldName|
  {
    if |oldName| == 0 || name[0] != oldName[0] then 0
    else
      var k := DivergeIndex(oldName[1..], name[1..]);
      assert name[..k + 1] == [name[0]] + name[1..][..k];
      assert oldName[..k + 1] == [oldName[0]] + oldName[1..][..k];
      k + 1
  }

  /** An index where the paths agree before it and part (or the old path ends)
      at it is the divergence index. */
  lemma DivergeIndexUnique(oldName: seq<string>, name: seq<string>, i: nat)
    requires !(name <= oldName)
    requires i <= |oldName| && i <= |name| && name[..i] == oldName[..i]
    requires i == |oldName| || i == |name| || name[i] != oldName[i]
    ensures i == DivergeIndex(oldName, name)
  {
    if i == |name| {
      assert false;
    }
  }

  /** Overlap segment `i` repeats an array: it has a subscript and names the
      same member as the old path's segment. */
  predicate RepeatsArray(oldSegment: string, segment: string)
  {
    '[' in segment && MemberName(segment) == MemberName(oldSegment)
  }

  /** The number of segments among the first `m` that contain '['. */
  function BracketsUpTo(name: seq<string>, m: nat): (n: nat)
    requires m <= |name|
    ensures n <= m
  {
    if m == 0 then 0 else BracketsUpTo(name, m - 1) + (if '[' in name[m - 1] then 1 else 0)
  }

  /** The number of array repeats among the first `m` overlap segments; every
      one is a segment with a '['. */
  function RepeatsUpTo(oldName: seq<string>, name: seq<string>, m: nat): (n: nat)
    requires m <= |oldName| && m <= |name|
    ensures n <= BracketsUpTo(name, m)
  {
    if m == 0 then 0
    else RepeatsUpTo(oldName, name, m - 1) + (if RepeatsArray(oldName[m - 1], name[m - 1]) then 1 else 0)
  }

  lemma {:induction false} BracketsMonotone(name: seq<string>, m: nat, m': nat)
    requires m <= m' <= |name|
    ensures BracketsUpTo(name, m) <= BracketsUpTo(name, m')
    decreases m' - m
  {
    if m < m' {
      BracketsMonotone(name, m, m' - 1);
    }
  }

  /** The target of the first `change_key`: the divergence index plus one for
      every repeated array segment of the overlap. */
  function FirstTarget(oldName: seq<string>, name: seq<string>): nat
    requires !(name <= oldName)
  {
    DivergeIndex(oldName, name) + RepeatsUpTo(oldName, name, Min(|oldName|, |name|))
  }

  /** The target of the second `change_key`, the depth `add` leaves: one less
      than the number of segments, plus one for every segment with a '['. */
  function TargetLevel(name: seq<string>): nat
    requires |name| >= 1
  {
    |name| - 1 + BracketsUpTo(name, |name|)
  }

  /** On the first add the first target is 0. */
  lemma FirstTargetOfFirstAdd(name: seq<string>)
    requires |name| >= 1
    ensures FirstTarget([], name) == 0
  {
  }

  /** The first target is never deeper than the final depth, so the second
      `change_key` only opens braces. */
  lemma FirstTargetWithinFinal(oldName: seq<string>, name: seq<string>)
    requires !(name <= oldName)
    ensures FirstTarget(oldName, name) <= TargetLevel(name)
  {
    BracketsMonotone(name, Min(|oldName|, |name|), |name|);
  }

  // ---------------------------------------------------------------------
  // The lines one value emits (:254-295)

  /** The values of matrix row `i`: `num[i*col:(i+1)*col]`. */
  function RowValues(num: seq<string>, col: nat, i: nat): seq<string>
  {
    Slice(num, i * col, (i + 1) * col)
  }

  /** The values of the first `k` rows, one after the other. */
  function RowsUpTo(num: seq<string>, col: nat, k: nat): seq<string>
  {
    if k == 0 then [] else RowsUpTo(num, col, k - 1) + RowValues(num, col, k - 1)
  }

  /** The rows take the values in order and lose none of the first `k*col`:
      together they are exactly those values (all of them when
      `k*col >= |num|`). */
  lemma {:induction false} RowsCoverValues(num: seq<string>, col: nat, k: nat)
    ensures RowsUpTo(num, col, k) == num[..Min(k * col, |num|)]
  {
    if k > 0 {
      RowsCoverValues(num, col, k - 1);
      var a := (k - 1) * col;
      assert k * col == a + col;
      var s := RowValues(num, col, k - 1);
      if a < |num| {
        assert s == num[a..Min(k * col, |num|)];
        assert num[..Min(a, |num|)] + s == num[..Min(k * col, |num|)];
      } else {
        assert s == [];
      }
    }
  }

  /** The lines of the first `k` row calls to `long_str_append`, each at
      depth `level`; None when one of them never ends. */
  function RowLines(cfg: Config, level: nat, num: seq<string>, col: nat, k: nat): Option<seq<string>>
  {
    if k == 0 then Some([])
    else
      match RowLines(cfg, level, num, col, k - 1)
      case None => None
      case Some(prev) =>
        match Wrap(Ind(cfg, level), Join(", ", RowValues(num, col, k - 1)), cfg.maxChars)
        case None => None
        case Some(rows) => Some(prev + rows)
  }

  /** When the first `k` rows end, so do the first `j` for every `j <= k`. */
  lemma {:induction false} RowLinesPrefix(cfg: Config, level: nat, num: seq<string>, col: nat, j: nat, k: nat)
    requires j <= k && RowLines(cfg, level, num, col, k).Some?
    ensures RowLines(cfg, level, num, col, j).Some?
    decreases k
  {
    if j < k {
      RowLinesPrefix(cfg, level, num, col, j, k - 1);
    }
  }

  /** One more row appends what `long_str_append` appends for that row. */
  lemma RowLinesSnoc(cfg: Config, level: nat, num: seq<string>, col: nat, k: nat)
    requires RowLines(cfg, level, num, col, k + 1).Some?
    ensures RowLines(cfg, level, num, col, k).Some?
    ensures Wrap(Ind(cfg, level), Join(", ", RowValues(num, col, k)), cfg.maxChars).Some?
    ensures RowLines(cfg, level, num, col, k + 1).value ==
            RowLines(cfg, level, num, col, k).value + Wrap(Ind(cfg, level), Join(", ", RowValues(num, col, k)), cfg.maxChars).value
  {
  }

  /** Every row line starts with the indentation of its depth. */
  lemma {:induction false} RowLinesIndented(cfg: Config, level: nat, num: seq<string>, col: nat, k: nat)
    requires RowLines(cfg, level, num, col, k).Some?
    ensures var ls := RowLines(cfg, level, num, col, k).value;
            forall j :: 0 <= j < |ls| ==> Ind(cfg, level) <= ls[j]
  {
    if k > 0 {
      RowLinesIndented(cfg, level, num, col, k - 1);
      IndPrefix(cfg, level, level);
      WrapRoundTrip(Ind(cfg, level), Join(", ", RowValues(num, col, k - 1)), cfg.maxChars);
    }
  }

  /** The comment line, then what `long_str_append` appends. */
  function AfterComment(comment: string, wrapped: Option<seq<string>>): Step<seq<string>>
  {
    match wrapped
    case None => Hangs
    case Some(ls) => Next([comment] + ls)
  }

  /** The lines `add` appends for `value` once the depth is `level`.  A value
      without a comma is a scalar, looked up by its BITS; a value with a comma
      is an array, looked up by its shape.  Raised is the KeyError of the
      lookup; Hangs is a `long_str_append` that never ends. */
  function ValueLines(cfg: Config, schema: Schema, level: nat, name: seq<string>, value: string): Step<seq<string>>
    requires |name| >= 1
  {
    if ',' !in value then ScalarLines(cfg, schema, level, name, value)
    else ArrayLines(cfg, schema, level, name, value)
  }

  /** The comment line `TAB*level + "// " + name[-1]`. */
  function Comment(cfg: Config, level: nat, name: seq<string>): string
    requires |name| >= 1
  {
    Ind(cfg, level) + "// " + name[|name| - 1]
  }

  /** A scalar: a positional initializer when the member has no BITS (or is
      not found), a designated one when it has, nothing for the removed name. */
  function ScalarLines(cfg: Config, schema: Schema, level: nat, name: seq<string>, value: string): Step<seq<string>>
    requires |name| >= 1
  {
    var ind := Ind(cfg, level);
    var last := name[|name| - 1];
    match MemberBit(schema, name)
    case Fault => Raised
    case Miss => Next([Comment(cfg, level, name), ind + value + ","])
    case Hit(bit) =>
      if |bit| == 0 then Next([Comment(cfg, level, name), ind + value + ","])
      else if last != cfg.needRemoveItem then Next([Comment(cfg, level, name), ind + "." + last + " = " + value + ","])
      else Next([])
  }

  /** An array: one wrapped list unless the member's shape has several rows. */
  function ArrayLines(cfg: Config, schema: Schema, level: nat, name: seq<string>, value: string): Step<seq<string>>
    requires |name| >= 1
  {
    var num := Split(value, ',');
    match MemberCount(schema, name)
    case Fault => Raised
    case Miss => ListLines(cfg, level, Comment(cfg, level, name), num)
    case Hit(shape) =>
      if shape.row == 1 then ListLines(cfg, level, Comment(cfg, level, name), num)
      else MatrixLines(cfg, level, Comment(cfg, level, name), num, shape.col, shape.row)
  }

  /** The comment, then the whole list through `long_str_append`. */
  function ListLines(cfg: Config, level: nat, comment: string, num: seq<string>): Step<seq<string>>
  {
    AfterComment(comment, Wrap(Ind(cfg, level), Join(", ", num), cfg.maxChars))
  }

  /** The comment, an opening brace, one wrapped group per row one level
      deeper, and a closing brace. */
  function MatrixLines(cfg: Config, level: nat, comment: string, num: seq<string>, col: nat, row: nat): Step<seq<string>>
  {
    var ind := Ind(cfg, level);
    match RowLines(cfg, level + 1, num, col, row)
    case None => Hangs
    case Some(rows) => Next([comment, ind + "{"] + rows + [ind + "},"])
  }

  /** Every line a value emits starts with the indentation of the depth it is
      emitted at. */
  lemma ValueLinesIndented(cfg: Config, schema: Schema, level: nat, name: seq<string>, value: string)
    requires |name| >= 1 && ValueLines(cfg, schema, level, name, value).Next?
    ensures var ls := ValueLines(cfg, schema, level, name, value).value;
            forall j :: 0 <= j < |ls| ==> Ind(cfg, level) <= ls[j]
  {
    if ',' in value {
      var num := Split(value, ',');
      var ms := MemberCount(schema, name);
      if ms.Miss? || ms.value.row == 1 {
        ListLinesIndented(cfg, level, Comment(cfg, level, name), num);
      } else {
        MatrixLinesIndented(cfg, level, Comment(cfg, level, name), num, ms.value.col, ms.value.row);
      }
    }
  }

  lemma ListLinesIndented(cfg: Config, level: nat, comment: string, num: seq<string>)
    requires Ind(cfg, level) <= comment && ListLines(cfg, level, comment, num).Next?
    ensures var ls := ListLines(cfg, level, comment, num).value;
            forall j :: 0 <= j < |ls| ==> Ind(cfg, level) <= ls[j]
  {
    IndPrefix(cfg, level, level);
    WrapRoundTrip(Ind(cfg, level), Join(", ", num), cfg.maxChars);
  }

  lemma MatrixLinesIndented(cfg: Config, level: nat, comment: string, num: seq<string>, col: nat, row: nat)
    requires Ind(cfg, level) <= comment && MatrixLines(cfg, level, comment, num, col, row).Next?
    ensures var ls := MatrixLines(cfg, level, comment, num, col, row).value;
            forall j :: 0 <= j < |ls| ==> Ind(cfg, level) <= ls[j]
  {
    IndPrefix(cfg, level, level + 1);
    RowLinesIndented(cfg, level + 1, num, col, row);
  }

  /** An array value that goes on one list: the comment, then lines that
      rejoin to the value with every comma followed by a blank, in braces. */
  lemma ListValueRoundTrip(cfg: Config, schema: Schema, level: nat, name: seq<string>, value: string)
    requires |name| >= 1 && ',' in value
    requires MemberCount(schema, name).Miss? || (MemberCount(schema, name).Hit? && MemberCount(schema, name).value.row == 1)
    requires ValueLines(cfg, schema, level, name, value).Next?
    ensures var ls := ValueLines(cfg, schema, level, name, value).value;
            var ind := Ind(cfg, level);
            && |ls| >= 2
            && ls[0] == ind + "// " + name[|name| - 1]
            && Rejoin(ind, ls[1..]) == ind + "{" + ReplaceChar(value, ',', ", ") + "},"
  {
    var ind := Ind(cfg, level);
    IndPrefix(cfg, level, level);
    JoinSplit(value, ',', ", ");
    WrapRoundTrip(ind, Join(", ", Split(value, ',')), cfg.maxChars);
  }

  /** A scalar value of a member with a non-empty BITS whose name is the one
      to remove emits nothing. */
  lemma RemovedBitField(cfg: Config, schema: Schema, level: nat, name: seq<string>, value: string)
    requires |name| >= 1 && ',' !in value
    requires MemberBit(schema, name).Hit? && |MemberBit(schema, name).value| > 0
    requires name[|name| - 1] == cfg.needRemoveItem
    ensures ValueLines(cfg, schema, level, name, value) == Next([])
  {
  }

  // ---------------------------------------------------------------------
  // `add` (:215-295)

  /** `add(name, value)`: on a path that repeats or is a prefix of the
      previous one Python raises (UnboundLocalError); so it does when the
      first add finds no opened brace to pop, or when a lookup raises. */
  function AddStep(cfg: Config, schema: Schema, g: Gen, name: seq<string>, value: string): (r: Step<Gen>)
    requires |g.data| >= 1 && |name| >= 1
    ensures name <= g.oldName ==> r == Raised
    ensures r.Next? ==> && r.value.level == TargetLevel(name)
                        && r.value.oldName == name
                        && r.value.line == g.line + 1
                        && |r.value.data| >= 1
  {
    if name <= g.oldName then Raised
    else
      var tab := Tab(cfg);
      var k1 := FirstTarget(g.oldName, name);
      var d1 := ChangeKeyData(g.data, tab, g.level, k1);
      var k2 := TargetLevel(name);
      var d2 := ChangeKeyData(d1, tab, k1, k2);
      if g.line == 0 && |d2| < 2 then Raised
      else
        var d3 := if g.line == 0 then d2[..1] + d2[2..] else d2;
        match ValueLines(cfg, schema, k2, name, value)
        case Next(lines) => Next(Gen(d3 + lines, k2, name, g.line + 1))
        case Raised => Raised
        case Hangs => Hangs
  }

  /** An add that goes through, step by step. */
  lemma AddStepNext(cfg: Config, schema: Schema, g: Gen, name: seq<string>, value: string)
    requires |g.data| >= 1 && |name| >= 1
    requires AddStep(cfg, schema, g, name, value).Next?
    ensures !(name <= g.oldName)
    ensures var k1 := FirstTarget(g.oldName, name);
            var k2 := TargetLevel(name);
            var d2 := ChangeKeyData(ChangeKeyData(g.data, Tab(cfg), g.level, k1), Tab(cfg), k1, k2);
            && (g.line == 0 ==> |d2| >= 2)
            && ValueLines(cfg, schema, k2, name, value).Next?
            && AddStep(cfg, schema, g, name, value).value
              == Gen((if g.line == 0 then d2[..1] + d2[2..] else d2) + ValueLines(cfg, schema, k2, name, value).value,
                     k2, name, g.line + 1)
  {
  }

  /** The buffer after an add: the first `change_key`, then only opening lines
      up to the final depth, less the line at index 1 on the first add, then
      the value lines. */
  lemma AddShape(cfg: Config, schema: Schema, g: Gen, name: seq<string>, value: string)
    requires |g.data| >= 1 && |name| >= 1
    requires AddStep(cfg, schema, g, name, value).Next?
    ensures !(name <= g.oldName)
    ensures var k1 := FirstTarget(g.oldName, name);
            var k2 := TargetLevel(name);
            var d2 := ChangeKeyData(g.data, Tab(cfg), g.level, k1) + OpenLines(Tab(cfg), k1, k2);
            && |d2| >= (if g.line == 0 then 2 else 1)
            && AddStep(cfg, schema, g, name, value).value.data
              == (if g.line == 0 then d2[..1] + d2[2..] else d2) + ValueLines(cfg, schema, k2, name, value).value
  {
    FirstTargetWithinFinal(g.oldName, name);
  }

  /** The first add after the constructor: it raises when the path opens no
      brace; otherwise the buffer is the header, the opening lines from depth
      1 on (the one at depth 0 was popped), then the value lines. */
  lemma FirstAdd(cfg: Config, schema: Schema, structName: string, name: seq<string>, value: string)
    requires |name| >= 1
    ensures var r := AddStep(cfg, schema, InitGen(cfg, structName), name, value);
            var k := TargetLevel(name);
            var v := ValueLines(cfg, schema, k, name, value);
            && (k == 0 || v.Raised? <==> r.Raised?)
            && (k > 0 && v.Next? ==>
                  r == Next(Gen([HeaderLine(cfg, structName)] + OpenLines(Tab(cfg), 1, k) + v.value, k, name, 1)))
  {
    var g := InitGen(cfg, structName);
    var k := TargetLevel(name);
    var tab := Tab(cfg);
    assert !(name <= g.oldName);
    assert FirstTarget(g.oldName, name) == 0;
    var d2 := g.data + OpenLines(tab, 0, k);
    assert ChangeKeyData(ChangeKeyData(g.data, tab, 0, 0), tab, 0, k) == d2;
    if k > 0 {
      assert d2[..1] + d2[2..] == g.data + OpenLines(tab, 1, k);
    }
  }

  // ---------------------------------------------------------------------
  // `finish` (:318-329)

  /** The buffer after `finish`: every brace closed, the last line `};`. */
  function FinishData(cfg: Config, g: Gen): (r: seq<string>)
    requires |g.data| >= 1
    ensures |r| == |g.data| + g.level
    ensures r[|r| - 1] == "};"
    ensures r[..|g.data| - 1] == g.data[..|g.data| - 1]
  {
    var closed := ChangeKeyData(g.data, Tab(cfg), g.level, 0);
    var r := closed[..|closed| - 1] + ["};"];
    assert r[..|g.data| - 1] == closed[..|g.data| - 1];
    r
  }

  /** The closing lines of `finish`: at depth 0 it overwrites the last line;
      otherwise the last line loses its final character, the closing lines
      are `TAB*d + "}"` from depth `level-1` down, and the final `"},"` at
      depth 0 is overwritten by `"};"`. */
  lemma FinishShape(cfg: Config, g: Gen)
    requires |g.data| >= 1
    ensures var r := FinishData(cfg, g);
            var m := |g.data|;
            && (g.level == 0 ==> r == g.data[..m - 1] + ["};"])
            && (g.level > 0 ==>
                  && r[m - 1] == DropLast(g.data[m - 1])
                  && forall j :: m <= j < m + g.level - 1 ==> r[j] == Ind(cfg, g.level - 1 - (j - m)) + "}")
  {
    if g.level > 0 {
      CloseLinesShape(g.data, Tab(cfg), g.level, 0);
    }
  }

  /** The filter `finish` applies: the parameter text (a substring test) or,
      when that is empty, the list of struct IDs (a membership test). */
  datatype Filter = FilterText(text: string) | FilterNames(names: seq<string>)

  /** `self.name in filter_struct` */
  predicate Passes(structName: string, filter: Filter)
  {
    match filter
    case FilterText(text) => IsSubstring(structName, text)
    case FilterNames(names) => structName in names
  }

  /** The filter text is searched, not split: a name that is only part of a
      listed name passes it, while the ID list needs the whole name. */
  lemma FilterTextMatchesParts()
    ensures Passes("ISP_NR", FilterText("hiISP_NR_ATTR_S\n"))
    ensures !Passes("ISP_NR", FilterNames(["hiISP_NR_ATTR_S"]))
  {
    assert OccursAt("ISP_NR", "hiISP_NR_ATTR_S\n", 2);
  }

  /** What `finish` would write: the buffer and a blank line when the name
      passes the filter, nothing otherwise. */
  function FinishOutput(structName: string, filter: Filter, lines: seq<string>): seq<string>
  {
    if Passes(structName, filter) then lines + [""] else []
  }
}
