/** The emitter `StructGen` (tools/pqtools_to_code/pqtools_to_code.py:173-329) as
    a class whose methods update its fields in place, each proved to leave the
    state its specification function in struct_gen_spec.dfy describes.

    The parameters it copies from PQtoolsParams and the schema are constant
    fields; the line buffer, the brace depth, the previous path and the add
    counter are the fields the methods change.
 */
module StructGenImpl {
  import opened Outcomes
  import opened PyStr
  import opened DataStruct
  import opened Braces
  import opened LineWrap
  import opened StructGenSpec

  /** The first loop of `add` and the subscript loop after it: the target of
      the first `change_key`. */
  method FirstKey(oldName: seq<string>, name: seq<string>) returns (key: nat)
    requires !(name <= oldName)
    ensures key == FirstTarget(oldName, name)
  {
    var i := 0;
    while i < |name| && i < |oldName| && name[i] == oldName[i]
      invariant i <= |name| && i <= |oldName|
      invariant name[..i] == oldName[..i]
    {
      assert name[..i + 1] == name[..i] + [name[i]];
      assert oldName[..i + 1] == oldName[..i] + [oldName[i]];
      i := i + 1;
    }
    DivergeIndexUnique(oldName, name, i);
    key := i;
    for j := 0 to Min(|oldName|, |name|)
      invariant key == i + RepeatsUpTo(oldName, name, j)
    {
      if '[' in name[j] {
        var segment := Split(name[j], '[');
        var oldSegment := Split(oldName[j], '[');
        if segment[0] == oldSegment[0] {
          key := key + 1;
        }
      }
    }
  }

  /** The last subscript loop of `add`: the target of the second `change_key`. */
  method FinalKey(name: seq<string>) returns (key: nat)
    requires |name| >= 1
    ensures key == TargetLevel(name)
  {
    key := |name| - 1;
    for i := 0 to |name|
      invariant key == |name| - 1 + BracketsUpTo(name, i)
    {
      if '[' in name[i] {
        key := key + 1;
      }
    }
  }

  lemma AppendBracketed<T>(a: seq<T>, x: T, y: T, r: seq<T>, z: T)
    ensures a + [x] + [y] + r + [z] == a + ([x, y] + r + [z])
  {
    var lhs := a + [x] + [y] + r + [z];
    var rhs := a + ([x, y] + r + [z]);
    assert |lhs| == |rhs|;
    forall k | 0 <= k < |lhs|
      ensures lhs[k] == rhs[k]
    {
    }
  }

  class StructGen {
    const cfg: Config
    const schema: Schema
    /** `self.name`: the C struct name, after renaming. */
    const name: string
    /** `self.pri_name_0`: the root segment of the path it was made for. */
    const priName0: string
    var data: seq<string>
    var level: nat
    var oldName: seq<string>
    var line: nat

    ghost predicate Valid()
      reads this
    {
      |data| >= 1
    }

    function State(): Gen
      reads this
    {
      Gen(data, level, oldName, line)
    }

    constructor (path: seq<string>, schema: Schema, cfg: Config, renames: map<string, string>)
      requires |path| >= 1
      ensures Valid()
      ensures this.cfg == cfg && this.schema == schema
      ensures name == StructName(path[0], renames) && priName0 == path[0]
      ensures State() == InitGen(cfg, name)
    {
      this.cfg := cfg;
      this.schema := schema;
      var n := path[0];
      if n in renames {
        n := renames[n];
      }
      name := n;
      priName0 := path[0];
      oldName := [];
      level := 0;
      line := 0;
      var instance := "g_" + Capitalize(cfg.productId) + DropLast(CamelCase(n));
      DeclarationText(n, instance);
      var header;
      if cfg.isConst {
        header := "static const struct " + n + " " + instance + " = {";
      } else {
        header := "static struct " + n + " " + instance + " = {";
      }
      data := [header];
    }

    /** `change_key(key)`: open or close braces until the depth is `key`. */
    method ChangeKey(key: nat)
      requires Valid()
      modifies this
      ensures Valid() && level == key
      ensures data == ChangeKeyData(old(data), Tab(cfg), old(level), key)
      ensures oldName == old(oldName) && line == old(line)
    {
      OpenTo(key);
      CloseTo(key);
    }

    /** The opening loop of `change_key`. */
    method OpenTo(key: nat)
      requires Valid()
      modifies this
      ensures Valid() && level == if old(level) < key then key else old(level)
      ensures data == if old(level) < key then old(data) + OpenLines(Tab(cfg), old(level), key) else old(data)
      ensures oldName == old(oldName) && line == old(line)
    {
      while level < key
        invariant old(level) <= level && (old(level) < key ==> level <= key)
        invariant key <= old(level) ==> level == old(level)
        invariant data == old(data) + OpenLines(Tab(cfg), old(level), level)
        invariant oldName == old(oldName) && line == old(line)
      {
        OpenLinesSnoc(Tab(cfg), old(level), level);
        data := data + [Ind(cfg, level) + "{"];
        level := level + 1;
      }
    }

    /** The closing loop of `change_key`. */
    method CloseTo(key: nat)
      requires Valid()
      modifies this
      ensures Valid() && level == if key < old(level) then key else old(level)
      ensures data == CloseLines(old(data), Tab(cfg), old(level), key)
      ensures oldName == old(oldName) && line == old(line)
    {
      while level > key
        invariant |data| >= 1 && (key < old(level) ==> key <= level) && level <= old(level)
        invariant old(level) <= key ==> level == old(level)
        invariant CloseLines(data, Tab(cfg), level, key) == CloseLines(old(data), Tab(cfg), old(level), key)
        invariant oldName == old(oldName) && line == old(line)
        decreases level
      {
        ghost var before := data;
        level := level - 1;
        data := data[..|data| - 1] + [DropLast(data[|data| - 1])];
        data := data + [Ind(cfg, level) + "},"];
        assert data == CloseStep(before, Tab(cfg), level);
      }
    }

    /** `long_str_append(s, lv)`: append `TAB*lv + "{" + s + "}" + ","` cut
        after commas into lines of at most MAX characters. */
    method LongStrAppend(s: string, lv: nat)
      requires Valid() && Wrap(Ind(cfg, lv), s, cfg.maxChars).Some?
      modifies this
      ensures Valid() && data == old(data) + Wrap(Ind(cfg, lv), s, cfg.maxChars).value
      ensures level == old(level) && oldName == old(oldName) && line == old(line)
    {
      var indent := Ind(cfg, lv);
      var longStr := indent + "{" + s + "}" + ",";
      AppendWrapped(indent, longStr);
    }

    /** The loop of `long_str_append`, with the indentation `TAB*lv` it puts
        back in front of every continuation line. */
    method AppendWrapped(indent: string, text: string)
      requires Valid() && WrapLoop(indent, text, |text|, cfg.maxChars).Some?
      modifies this
      ensures Valid() && data == old(data) + WrapLoop(indent, text, |text|, cfg.maxChars).value
      ensures level == old(level) && oldName == old(oldName) && line == old(line)
    {
      var longStr := text;
      var length: int := |longStr|;
      ghost var rest := WrapLoop(indent, longStr, length, cfg.maxChars).value;
      while length > 0
        invariant WrapLoop(indent, longStr, length, cfg.maxChars) == Some(rest)
        invariant data + rest == old(data) + WrapLoop(indent, text, |text|, cfg.maxChars).value
        invariant |data| >= 1
        invariant level == old(level) && oldName == old(oldName) && line == old(line)
        decreases if length > 0 then length else 0
      {
        if length > cfg.maxChars {
          var clip := Window(longStr, cfg.maxChars);
          var index := RFind(clip, ',');
          WrapLoopCut(indent, longStr, length, cfg.maxChars, index, rest);
          clip := clip[..index + 1];
          AppendAssoc(data, [clip], rest[1..]);
          data := data + [clip];
          longStr := indent + longStr[index + 1..];
          length := length - |clip|;
          rest := rest[1..];
        } else {
          WrapLoopLast(indent, longStr, length, cfg.maxChars, rest);
          data := data + [longStr];
          length := 0;
          rest := [];
        }
      }
    }

    /** The value part of `add`: the lines for `value` at the current depth. */
    method EmitValue(path: seq<string>, value: string)
      requires Valid() && |path| >= 1 && ValueLines(cfg, schema, level, path, value).Next?
      modifies this
      ensures level == old(level) && oldName == old(oldName) && line == old(line)
      ensures Valid() && data == old(data) + ValueLines(cfg, schema, old(level), path, value).value
    {
      if ',' !in value {
        EmitScalar(path, value);
      } else {
        EmitArray(path, value);
      }
    }

    /** A value without a comma: one field, looked up by its BITS. */
    method EmitScalar(path: seq<string>, value: string)
      requires Valid() && |path| >= 1 && ScalarLines(cfg, schema, level, path, value).Next?
      modifies this
      ensures level == old(level) && oldName == old(oldName) && line == old(line)
      ensures Valid() && data == old(data) + ScalarLines(cfg, schema, old(level), path, value).value
    {
      var ind := Ind(cfg, level);
      var last := path[|path| - 1];
      var bit := MemberBit(schema, path);
      if bit.Miss? || |bit.value| == 0 {
        data := data + [ind + "// " + last, ind + value + ","];
      } else if last != cfg.needRemoveItem {
        data := data + [ind + "// " + last, ind + "." + last + " = " + value + ","];
      }
    }

    /** A value with commas: an array, one wrapped list or one per row. */
    method EmitArray(path: seq<string>, value: string)
      requires Valid() && |path| >= 1 && ArrayLines(cfg, schema, level, path, value).Next?
      modifies this
      ensures level == old(level) && oldName == old(oldName) && line == old(line)
      ensures Valid() && data == old(data) + ArrayLines(cfg, schema, old(level), path, value).value
    {
      var ind := Ind(cfg, level);
      var last := path[|path| - 1];
      var size := MemberCount(schema, path);
      var num := Split(value, ',');
      if size.Miss? || size.value.row == 1 {
        EmitList(ind + "// " + last, num);
      } else {
        var row: nat := size.value.row;
        var col: nat := size.value.col;
        EmitMatrix(ind + "// " + last, num, col, row);
      }
    }

    /** The comment line, then the whole array through `long_str_append`. */
    method EmitList(comment: string, num: seq<string>)
      requires Valid() && ListLines(cfg, level, comment, num).Next?
      modifies this
      ensures level == old(level) && oldName == old(oldName) && line == old(line)
      ensures Valid() && data == old(data) + ListLines(cfg, old(level), comment, num).value
    {
      data := data + [comment];
      LongStrAppend(Join(", ", num), level);
      AppendAssoc(old(data), [comment], Wrap(Ind(cfg, level), Join(", ", num), cfg.maxChars).value);
    }

    /** The comment line, an opening brace, one row group per row one level
        deeper, and a closing brace. */
    method EmitMatrix(comment: string, num: seq<string>, col: nat, row: nat)
      requires Valid() && MatrixLines(cfg, level, comment, num, col, row).Next?
      modifies this
      ensures level == old(level) && oldName == old(oldName) && line == old(line)
      ensures Valid() && data == old(data) + MatrixLines(cfg, old(level), comment, num, col, row).value
    {
      var ind := Ind(cfg, level);
      data := data + [comment];
      data := data + [ind + "{"];
      EmitRows(num, col, row);
      data := data + [ind + "},"];
      AppendBracketed(old(data), comment, ind + "{", RowLines(cfg, level + 1, num, col, row).value, ind + "},");
    }

    /** The row loop of a matrix value: one `long_str_append` per row, one
        level deeper than the braces around them. */
    method EmitRows(num: seq<string>, col: nat, row: nat)
      requires Valid() && RowLines(cfg, level + 1, num, col, row).Some?
      modifies this
      ensures level == old(level) && oldName == old(oldName) && line == old(line)
      ensures Valid() && data == old(data) + RowLines(cfg, level + 1, num, col, row).value
    {
      var lv := level + 1;
      for i := 0 to row
        invariant |data| >= 1
        invariant level == old(level) && oldName == old(oldName) && line == old(line)
        invariant RowLines(cfg, lv, num, col, i).Some?
        invariant data == old(data) + RowLines(cfg, lv, num, col, i).value
      {
        RowLinesPrefix(cfg, lv, num, col, i + 1, row);
        RowLinesSnoc(cfg, lv, num, col, i);
        var rowText := Join(", ", RowValues(num, col, i));
        AppendAssoc(old(data), RowLines(cfg, lv, num, col, i).value, Wrap(Ind(cfg, lv), rowText, cfg.maxChars).value);
        LongStrAppend(rowText, lv);
      }
    }

    /** `add(path, value)`: move the brace depth for the new path, then emit
        the value. */
    method Add(path: seq<string>, value: string)
      requires Valid() && |path| >= 1 && AddStep(cfg, schema, State(), path, value).Next?
      modifies this
      ensures Valid() && State() == AddStep(cfg, schema, old(State()), path, value).value
    {
      AddStepNext(cfg, schema, State(), path, value);
      var key := FirstKey(oldName, path);
      ChangeKey(key);
      key := FinalKey(path);
      ChangeKey(key);
      if line == 0 {
        data := data[..1] + data[2..];
      }
      oldName := path;
      line := line + 1;
      EmitValue(path, value);
    }

    /** `finish(filter)`: close every brace, make the last line `};`, and
        return what would be written. */
    method Finish(filter: Filter) returns (out: seq<string>)
      requires Valid()
      modifies this
      ensures Valid() && level == 0 && data == FinishData(cfg, old(State()))
      ensures oldName == old(oldName) && line == old(line)
      ensures out == FinishOutput(name, filter, data)
    {
      ChangeKey(0);
      data := data[..|data| - 1] + ["};"];
      if Passes(name, filter) {
        out := data + [""];
      } else {
        out := [];
      }
    }
  }
}
