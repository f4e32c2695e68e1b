/** The string and grouping logic of `PQtoolsToCode.generate_code`
    (tools/pqtools_to_code/pqtools_to_code.py:111-170): the include guard and
    the header and trailer texts, the one-entry rename table, the default of
    the struct filter, and the loop that feeds the SAVE_DATA records, grouped
    by their root segment, to one `StructGen` per group.

    The XML export is given already parsed: the schema as in data_struct.dfy
    and the SAVE_DATA records as a sequence of (PATH, VALUE) pairs.  What
    `generate_code` writes to the output file is returned as its text.
 */
module PQtoolsToCode {
  import opened Outcomes
  import opened PyStr
  import opened DataStruct
  import opened StructGenSpec
  import opened StructGenImpl

  /** The fields of `PQtoolsParams` that `generate_code` reads besides the
      XML file name. */
  datatype Params = Params(
    tabSpace: nat,
    maxLineCharCounts: nat,
    productId: string,
    outputPath: string,
    filterStruct: string,
    customDefineDict: string,
    needRemoveItem: string,
    isConst: bool,
    includeHeaders: string,
    addCustomDefines: string)

  /** What each `StructGen` reads from the parameters (:174-181). */
  function ConfigOf(p: Params): Config
  {
    Config(p.tabSpace, p.maxLineCharCounts, p.productId, p.needRemoveItem, p.isConst)
  }

  // ---------------------------------------------------------------------
  // The include guard and the fixed texts (:113-139)

  /** `filename.split('/')[-1]`: the text after the last slash, or all of it. */
  function Basename(path: string): (b: string)
    ensures '/' !in b
    ensures |b| <= |path| && path[|path| - |b|..] == b
    ensures |b| < |path| ==> path[|path| - |b| - 1] == '/'
  {
    SplitLastPiece(path, '/');
    assert LastPieceOf(path, '/', Last(Split(path, '/')));
    Last(Split(path, '/'))
  }

  /** The last piece of a split is a suffix of the text without the
      separator, preceded by the separator unless it is the whole text. */
  predicate LastPieceOf(s: string, c: char, b: string)
  {
    && c !in b
    && |b| <= |s| && s[|s| - |b|..] == b
    && (|b| < |s| ==> s[|s| - |b| - 1] == c)
  }

  lemma {:induction false} SplitLastPiece(s: string, c: char)
    ensures LastPieceOf(s, c, Last(Split(s, c)))
    decreases |s|
  {
    if |s| > 0 {
      SplitLastPiece(s[1..], c);
      SplitLastStep(s, c);
    }
  }

  /** One character more in front: the last piece stays, or, when the rest
      is a single piece and the character is not the separator, grows to the
      whole text. */
  lemma SplitLastStep(s: string, c: char)
    requires |s| > 0 && LastPieceOf(s[1..], c, Last(Split(s[1..], c)))
    ensures LastPieceOf(s, c, Last(Split(s, c)))
  {
    SplitSingle(s[1..], c);
    if s[0] != c && |Split(s[1..], c)| == 1 {
      SplitWithoutSeparator(s[1..], c);
      assert Split(s, c) == [[s[0]] + s[1..]];
      assert [s[0]] + s[1..] == s;
    } else {
      SplitLastKeep(s, c);
    }
  }

  lemma SplitLastKeep(s: string, c: char)
    requires |s| > 0 && LastPieceOf(s[1..], c, Last(Split(s[1..], c)))
    requires s[0] == c || c in s[1..]
    ensures LastPieceOf(s, c, Last(Split(s, c)))
  {
    var t := s[1..];
    var rest := Split(t, c);
    var b := Last(rest);
    SplitSingle(t, c);
    if s[0] == c {
      assert Split(s, c) == [""] + rest;
    } else {
      assert Split(s, c) == [[s[0]] + rest[0]] + rest[1..];
    }
    assert Last(Split(s, c)) == b;
    assert s[|s| - |b|..] == t[|t| - |b|..];
    if |b| < |t| {
      assert s[|s| - |b| - 1] == t[|t| - |b| - 1];
    }
  }

  /** The guard macro: `"_" + PRODUCT_ID.upper() + "_" + FILE + "_"`. */
  function GuardName(productId: string, outputPath: string): string
  {
    "_" + Upper(productId) + "_" + FilePart(outputPath) + "_"
  }

  /** `filename_nosuffix.upper().replace(".", "_")` */
  function FilePart(outputPath: string): string
  {
    ReplaceChar(Upper(Basename(outputPath)), '.', "_")
  }

  /** The file part of the guard has, at every position, the upper-cased
      character of the file name, or an underscore where that has a dot. */
  lemma FilePartShape(outputPath: string)
    ensures var b := Basename(outputPath);
            var t := FilePart(outputPath);
            && |t| == |b|
            && forall i :: 0 <= i < |b| ==> t[i] == if b[i] == '.' then '_' else UpperChar(b[i])
  {
    var b := Basename(outputPath);
    var u := Upper(b);
    var t := FilePart(outputPath);
    ReplaceCharPointwise(u, '.', '_');
    forall i | 0 <= i < |b|
      ensures t[i] == if b[i] == '.' then '_' else UpperChar(b[i])
    {
      assert u[i] == UpperChar(b[i]);
      assert UpperChar(b[i]) == '.' <==> b[i] == '.';
    }
  }

  predicate NoLower(s: string)
  {
    forall i :: 0 <= i < |s| ==> !IsLowerAscii(s[i])
  }

  lemma NoLowerAppend(a: string, b: string)
    requires NoLower(a) && NoLower(b)
    ensures NoLower(a + b)
  {
    forall i | 0 <= i < |a + b|
      ensures !IsLowerAscii((a + b)[i])
    {
      if i >= |a| {
        assert (a + b)[i] == b[i - |a|];
      }
    }
  }

  /** The guard is as long as the product ID and the file name together
      plus its three underscores, and holds no lower-case letter. */
  lemma GuardShape(productId: string, outputPath: string)
    ensures var g := GuardName(productId, outputPath);
            && |g| == |productId| + |Basename(outputPath)| + 3
            && NoLower(g)
  {
    FilePartShape(outputPath);
    var t := FilePart(outputPath);
    assert NoLower(t) by {
      forall i | 0 <= i < |t|
        ensures !IsLowerAscii(t[i])
      {
      }
    }
    assert NoLower("_");
    NoLowerAppend("_", Upper(productId));
    NoLowerAppend("_" + Upper(productId), "_");
    NoLowerAppend("_" + Upper(productId) + "_", t);
    NoLowerAppend("_" + Upper(productId) + "_" + t, "_");
  }

  /** Replacing a character by one other character works position by position. */
  lemma {:induction false} ReplaceCharPointwise(s: string, c: char, d: char)
    ensures var t := ReplaceChar(s, c, [d]);
            |t| == |s| && forall i :: 0 <= i < |s| ==> t[i] == if s[i] == c then d else s[i]
    decreases |s|
  {
    if |s| > 0 {
      ReplaceCharPointwise(s[1..], c, d);
      var t := ReplaceChar(s, c, [d]);
      var rest := ReplaceChar(s[1..], c, [d]);
      assert t == (if s[0] == c then [d] else [s[0]]) + rest;
      forall i | 0 <= i < |s|
        ensures t[i] == if s[i] == c then d else s[i]
      {
        if i > 0 {
          assert t[i] == rest[i - 1];
        }
      }
    }
  }

  /** The `extern "C"` opening block (written in short pieces, which keeps
      proofs about the texts cheap). */
  function CplusplusOpen(): string
  {
    "\n" + "#ifdef __cplusplus\n" + "#if __cplusplus\n" + "extern \"C\" {\n" + "#endif\n" + "#endif\n"
  }

  /** `head`: the guard, the include headers, the `extern "C"` block and
      the custom defines. */
  function HeadText(p: Params): string
  {
    var guard := GuardName(p.productId, p.outputPath);
    "#ifndef " + guard + "\n" + "#define " + guard + "\n\n" + p.includeHeaders + "\n"
    + CplusplusOpen() + "\n" + p.addCustomDefines + "\n\n"
  }

  /** `end`: closes the `extern "C"` block and the guard. */
  function EndText(): string
  {
    "#ifdef __cplusplus\n" + "#if __cplusplus\n" + "}\n" + "#endif\n"
    + "#endif /* End of " + "#ifdef __cplusplus */\n" + "\n" + "#endif\n"
  }

  // ---------------------------------------------------------------------
  // The rename table and the filter (:127-130, :144-145)

  /** `{l[0]: l[1]}` for `l = custom_define_dict.split(":")`; None where
      `l[1]` raises IndexError. */
  function RenameTable(text: string): Option<map<string, string>>
  {
    var parts := Split(text, ':');
    if |parts| < 2 then None else Some(map[parts[0] := parts[1]])
  }

  /** The table exists exactly when the text has a colon; for `a:b` with no
      further colon it maps `a` to `b`, and after a second colon the rest is
      ignored. */
  lemma RenameTableSpec(text: string)
    ensures RenameTable(text).Some? <==> ':' in text
    ensures forall a, b :: text == a + ":" + b && ':' !in a && ':' !in b ==> RenameTable(text) == Some(map[a := b])
    ensures forall a, b, c :: text == a + ":" + b + ":" + c && ':' !in a && ':' !in b ==> RenameTable(text) == Some(map[a := b])
  {
    SplitSingle(text, ':');
    forall a, b | text == a + ":" + b && ':' !in a && ':' !in b
      ensures RenameTable(text) == Some(map[a := b])
    {
      assert text == a + [':'] + b;
      SplitAtFirst(a, b, ':');
      SplitWithoutSeparator(b, ':');
    }
    forall a, b, c | text == a + ":" + b + ":" + c && ':' !in a && ':' !in b
      ensures RenameTable(text) == Some(map[a := b])
    {
      assert text == a + [':'] + (b + [':'] + c);
      SplitAtFirst(a, b + [':'] + c, ':');
      SplitAtFirst(b, c, ':');
    }
  }

  /** A `custom_define_dict` without a colon, such as the default typedef
      text, makes `generate_code` raise IndexError before it writes anything. */
  lemma NoColonRaises(p: Params, schema: Schema, recs: seq<Record>)
    requires ':' !in p.customDefineDict
    ensures Generate(p, schema, recs) == Raised
  {
    RenameTableSpec(p.customDefineDict);
  }

  /** The filter `finish` gets: the parameter text, or the list of struct
      IDs when that is empty. */
  function EffectiveFilter(p: Params, schema: Schema): Filter
  {
    if |p.filterStruct| == 0 then FilterNames(StructIds(schema)) else FilterText(p.filterStruct)
  }

  /** A non-empty filter text passes the names it contains; an empty one
      passes the IDs of the schema's structs. */
  lemma EffectiveFilterPasses(p: Params, schema: Schema, n: string)
    ensures |p.filterStruct| > 0 ==> (Passes(n, EffectiveFilter(p, schema)) <==> IsSubstring(n, p.filterStruct))
    ensures |p.filterStruct| == 0 ==> (Passes(n, EffectiveFilter(p, schema)) <==> exists k :: 0 <= k < |schema| && schema[k].id == n)
  {
    if |p.filterStruct| == 0 {
      var ids := StructIds(schema);
      if n in ids {
        var k :| 0 <= k < |ids| && ids[k] == n;
        assert schema[k].id == n;
      }
    }
  }

  // ---------------------------------------------------------------------
  // The record loop (:147-164)

  /** One SAVE_DATA record: its PATH and VALUE attributes. */
  datatype Record = Record(path: string, value: string)

  /** `node.getAttribute('PATH').split('.')` */
  function Path(r: Record): (p: seq<string>)
    ensures |p| >= 1
  {
    Split(r.path, '.')
  }

  /** The root segment, which names the struct the record belongs to. */
  function Root(r: Record): string
  {
    Path(r)[0]
  }

  /** The `StructGen` the loop holds: its name after renaming, the root
      segment it was made for (`pri_name_0`) and its state. */
  datatype Open = Open(name: string, root: string, gen: Gen)

  /** A fresh `StructGen` for a path. */
  function NewOpen(cfg: Config, renames: map<string, string>, path: seq<string>): (o: Open)
    requires |path| >= 1
    ensures o.root == path[0] && |o.gen.data| >= 1
    ensures o.name == StructName(path[0], renames) && o.gen == InitGen(cfg, o.name)
  {
    var n := StructName(path[0], renames);
    Open(n, path[0], InitGen(cfg, n))
  }

  predicate Ready(cur: Option<Open>)
  {
    cur.Some? ==> |cur.value.gen.data| >= 1
  }

  /** `written` goes out before whatever the rest of the run writes. */
  function After(written: seq<string>, s: Step<seq<string>>): Step<seq<string>>
  {
    match s
    case Next(rest) => Next(written + rest)
    case Raised => Raised
    case Hangs => Hangs
  }

  /** The loop from the given records on, holding `cur` (None before the
      first record): it returns the lines the `finish` calls write.  The
      first record only makes a `StructGen`; a new root finishes the one
      held and makes and feeds a new one; the same root feeds the one held.
      The last `StructGen` is never finished. */
  function Drive(cfg: Config, schema: Schema, renames: map<string, string>, filter: Filter,
                 recs: seq<Record>, cur: Option<Open>): Step<seq<string>>
    requires Ready(cur)
    decreases |recs|
  {
    if |recs| == 0 then Next([])
    else
      var path := Path(recs[0]);
      match cur
      case None => Drive(cfg, schema, renames, filter, recs[1..], Some(NewOpen(cfg, renames, path)))
      case Some(o) =>
        if path[0] != o.root then
          var written := FinishOutput(o.name, filter, FinishData(cfg, o.gen));
          var o2 := NewOpen(cfg, renames, path);
          match AddStep(cfg, schema, o2.gen, path, recs[0].value)
          case Next(g) => After(written, Drive(cfg, schema, renames, filter, recs[1..], Some(o2.(gen := g))))
          case Raised => Raised
          case Hangs => Hangs
        else
          match AddStep(cfg, schema, o.gen, path, recs[0].value)
          case Next(g) => Drive(cfg, schema, renames, filter, recs[1..], Some(o.(gen := g)))
          case Raised => Raised
          case Hangs => Hangs
  }

  /** The text written for a list of lines, `f.write(line + '\n')` each. */
  function Text(lines: seq<string>): string
  {
    if |lines| == 0 then "" else lines[0] + "\n" + Text(lines[1..])
  }

  lemma {:induction false} TextAppend(a: seq<string>, b: seq<string>)
    ensures Text(a + b) == Text(a) + Text(b)
    decreases |a|
  {
    if |a| > 0 {
      TextAppend(a[1..], b);
      assert (a + b)[0] == a[0];
      assert (a + b)[1..] == a[1..] + b;
      assert Text(a + b) == a[0] + "\n" + (Text(a[1..]) + Text(b));
    } else {
      assert a + b == b;
    }
  }

  /** Reading the written lines back: splitting the text at newlines gives
      the lines and an empty piece after the final newline. */
  lemma {:induction false} TextLines(lines: seq<string>)
    requires forall k :: 0 <= k < |lines| ==> '\n' !in lines[k]
    ensures Split(Text(lines), '\n') == lines + [""]
    decreases |lines|
  {
    if |lines| > 0 {
      TextLines(lines[1..]);
      assert Text(lines) == lines[0] + ['\n'] + Text(lines[1..]);
      SplitAtFirst(lines[0], Text(lines[1..]), '\n');
      assert lines == [lines[0]] + lines[1..];
    }
  }

  /** `generate_code`: what the output file holds afterwards. */
  function Generate(p: Params, schema: Schema, recs: seq<Record>): Step<string>
  {
    match RenameTable(p.customDefineDict)
    case None => Raised
    case Some(renames) =>
      match Drive(ConfigOf(p), schema, renames, EffectiveFilter(p, schema), recs, None)
      case Next(lines) => Next(HeadText(p) + Text(lines) + EndText())
      case Raised => Raised
      case Hangs => Hangs
  }

  /** The loop of `generate_code` over `StructGen` objects, for a run that
      ends (no add raises and no wrap loops forever). */
  method GenerateCode(p: Params, schema: Schema, recs: seq<Record>) returns (text: string)
    requires Generate(p, schema, recs).Next?
    ensures text == Generate(p, schema, recs).value
  {
    var cfg := ConfigOf(p);
    var parts := Split(p.customDefineDict, ':');
    var renames := map[parts[0] := parts[1]];
    var filter := FilterText(p.filterStruct);
    if |p.filterStruct| == 0 {
      filter := FilterNames(StructIds(schema));
    }
    GenerateRun(p, schema, recs);
    assert renames == RenameTable(p.customDefineDict).value;
    assert filter == EffectiveFilter(p, schema);
    ghost var total := Drive(cfg, schema, renames, filter, recs, None);
    var out: seq<string> := [];
    var strGen: StructGen? := null;
    ghost var cur: Option<Open> := None;
    assert recs[0..] == recs;
    AfterNothing(total);
    for i := 0 to |recs|
      invariant strGen == null <==> cur.None?
      invariant strGen != null ==> && fresh(strGen) && strGen.Valid()
                                   && strGen.cfg == cfg && strGen.schema == schema
                                   && cur == Some(Open(strGen.name, strGen.priName0, strGen.State()))
      invariant Ready(cur)
      invariant total == After(out, Drive(cfg, schema, renames, filter, recs[i..], cur))
      invariant Drive(cfg, schema, renames, filter, recs[i..], cur).Next?
    {
      var name := Path(recs[i]);
      var value := recs[i].value;
      ghost var rest := recs[i..];
      assert rest[0] == recs[i] && rest[1..] == recs[i + 1..];
      if strGen == null {
        DriveFirstStep(cfg, schema, renames, filter, rest);
        strGen := new StructGen(name, schema, cfg, renames);
      } else if name[0] != strGen.priName0 {
        DriveSwitchStep(cfg, schema, renames, filter, rest, cur.value);
        var lines;
        lines, strGen := SwitchStruct(strGen, name, value, filter, renames);
        AfterAfter(out, lines, Drive(cfg, schema, renames, filter, recs[i + 1..],
                                     Some(Open(strGen.name, strGen.priName0, strGen.State()))));
        out := out + lines;
      } else {
        DriveSameStep(cfg, schema, renames, filter, rest, cur.value);
        strGen.Add(name, value);
      }
      cur := Some(Open(strGen.name, strGen.priName0, strGen.State()));
    }
    assert recs[|recs|..] == [];
    assert Drive(cfg, schema, renames, filter, recs[|recs|..], cur) == Next([]);
    assert out + [] == out;
    assert total == Next(out);
    text := HeadText(p) + Text(out) + EndText();
  }

  /** A record with a new root: finish the held `StructGen`, then make a
      new one and add the record to it. */
  method SwitchStruct(held: StructGen, path: seq<string>, value: string, filter: Filter,
                      renames: map<string, string>) returns (lines: seq<string>, next: StructGen)
    requires held.Valid() && |path| >= 1
    requires AddStep(held.cfg, held.schema, NewOpen(held.cfg, renames, path).gen, path, value).Next?
    modifies held
    ensures lines == FinishOutput(held.name, filter, FinishData(held.cfg, old(held.State())))
    ensures fresh(next) && next.Valid() && next.cfg == held.cfg && next.schema == held.schema
    ensures Open(next.name, next.priName0, next.State())
            == NewOpen(held.cfg, renames, path).(gen := AddStep(held.cfg, held.schema, NewOpen(held.cfg, renames, path).gen, path, value).value)
  {
    lines := held.Finish(filter);
    next := new StructGen(path, held.schema, held.cfg, renames);
    next.Add(path, value);
  }

  /** A run that ends has a rename table and a record loop that ends. */
  lemma GenerateRun(p: Params, schema: Schema, recs: seq<Record>)
    requires Generate(p, schema, recs).Next?
    ensures |Split(p.customDefineDict, ':')| >= 2
    ensures RenameTable(p.customDefineDict).Some?
    ensures var d := Drive(ConfigOf(p), schema, RenameTable(p.customDefineDict).value, EffectiveFilter(p, schema), recs, None);
            d.Next? && Generate(p, schema, recs).value == HeadText(p) + Text(d.value) + EndText()
  {
  }

  /** The first record only makes a `StructGen`. */
  lemma DriveFirstStep(cfg: Config, schema: Schema, renames: map<string, string>, filter: Filter, recs: seq<Record>)
    requires |recs| >= 1
    ensures Drive(cfg, schema, renames, filter, recs, None)
            == Drive(cfg, schema, renames, filter, recs[1..], Some(NewOpen(cfg, renames, Path(recs[0]))))
  {
  }

  /** A record with a new root: the held `StructGen` is finished and written,
      and a fresh one takes the record. */
  lemma DriveSwitchStep(cfg: Config, schema: Schema, renames: map<string, string>, filter: Filter,
                        recs: seq<Record>, o: Open)
    requires |recs| >= 1 && |o.gen.data| >= 1 && Path(recs[0])[0] != o.root
    requires Drive(cfg, schema, renames, filter, recs, Some(o)).Next?
    ensures var path := Path(recs[0]);
            var o2 := NewOpen(cfg, renames, path);
            var step := AddStep(cfg, schema, o2.gen, path, recs[0].value);
            && step.Next?
            && Drive(cfg, schema, renames, filter, recs, Some(o))
               == After(FinishOutput(o.name, filter, FinishData(cfg, o.gen)),
                        Drive(cfg, schema, renames, filter, recs[1..], Some(o2.(gen := step.value))))
            && Drive(cfg, schema, renames, filter, recs[1..], Some(o2.(gen := step.value))).Next?
  {
  }

  /** A record with the held root is added to the held `StructGen`. */
  lemma DriveSameStep(cfg: Config, schema: Schema, renames: map<string, string>, filter: Filter,
                      recs: seq<Record>, o: Open)
    requires |recs| >= 1 && |o.gen.data| >= 1 && Path(recs[0])[0] == o.root
    requires Drive(cfg, schema, renames, filter, recs, Some(o)).Next?
    ensures var path := Path(recs[0]);
            var step := AddStep(cfg, schema, o.gen, path, recs[0].value);
            && step.Next?
            && Drive(cfg, schema, renames, filter, recs, Some(o))
               == Drive(cfg, schema, renames, filter, recs[1..], Some(o.(gen := step.value)))
  {
  }

  lemma AfterNothing(s: Step<seq<string>>)
    ensures After([], s) == s
  {
    if s.Next? {
      assert [] + s.value == s.value;
    }
  }

  lemma AfterAfter(a: seq<string>, b: seq<string>, s: Step<seq<string>>)
    ensures After(a, After(b, s)) == After(a + b, s)
  {
    if s.Next? {
      assert a + (b + s.value) == a + b + s.value;
    }
  }

  // ---------------------------------------------------------------------
  // The same run, group by group

  /** The number of leading records with the given root. */
  function RunLength(recs: seq<Record>, root: string): (n: nat)
    ensures n <= |recs|
    ensures n < |recs| ==> Root(recs[n]) != root
    decreases |recs|
  {
    if |recs| == 0 || Root(recs[0]) != root then 0 else 1 + RunLength(recs[1..], root)
  }

  /** Every record of the leading run has the root. */
  lemma {:induction false} RunLengthRoots(recs: seq<Record>, root: string)
    ensures forall j :: 0 <= j < RunLength(recs, root) ==> Root(recs[j]) == root
    decreases |recs|
  {
    if |recs| > 0 && Root(recs[0]) == root {
      RunLengthRoots(recs[1..], root);
      forall j | 0 <= j < RunLength(recs, root)
        ensures Root(recs[j]) == root
      {
        if j > 0 {
          assert recs[j] == recs[1..][j - 1];
        }
      }
    }
  }

  /** The maximal runs of consecutive records with the same root. */
  function Groups(recs: seq<Record>): (gs: seq<seq<Record>>)
    ensures forall k :: 0 <= k < |gs| ==> |gs[k]| >= 1
    decreases |recs|
  {
    if |recs| == 0 then []
    else
      var n := RunLength(recs, Root(recs[0]));
      [recs[..n]] + Groups(recs[n..])
  }

  function Flatten(gs: seq<seq<Record>>): seq<Record>
  {
    if |gs| == 0 then [] else gs[0] + Flatten(gs[1..])
  }

  /** The groups, put back together, are the records in order. */
  lemma {:induction false} GroupsFlatten(recs: seq<Record>)
    ensures Flatten(Groups(recs)) == recs
    decreases |recs|
  {
    if |recs| > 0 {
      var n := RunLength(recs, Root(recs[0]));
      var gs := Groups(recs);
      GroupsFlatten(recs[n..]);
      assert gs[0] == recs[..n] && gs[1..] == Groups(recs[n..]);
      assert recs[..n] + recs[n..] == recs;
    }
  }

  /** The records of a group share one root. */
  lemma {:induction false} GroupsShareRoot(recs: seq<Record>)
    ensures forall k, j :: 0 <= k < |Groups(recs)| && 0 <= j < |Groups(recs)[k]| ==>
              Root(Groups(recs)[k][j]) == Root(Groups(recs)[k][0])
    decreases |recs|
  {
    if |recs| > 0 {
      var n := RunLength(recs, Root(recs[0]));
      var gs := Groups(recs);
      var rest := Groups(recs[n..]);
      GroupsShareRoot(recs[n..]);
      RunLengthRoots(recs, Root(recs[0]));
      assert gs == [recs[..n]] + rest;
      forall k, j | 0 <= k < |gs| && 0 <= j < |gs[k]|
        ensures Root(gs[k][j]) == Root(gs[k][0])
      {
        if k > 0 {
          assert gs[k] == rest[k - 1];
        } else {
          assert gs[0][j] == recs[j] && gs[0][0] == recs[0];
        }
      }
    }
  }

  /** Neighbouring groups have different roots: every group is a maximal run. */
  lemma {:induction false} GroupsBoundaries(recs: seq<Record>)
    ensures forall k :: 0 <= k < |Groups(recs)| - 1 ==>
              Root(Groups(recs)[k][|Groups(recs)[k]| - 1]) != Root(Groups(recs)[k + 1][0])
    decreases |recs|
  {
    if |recs| > 0 {
      var n := RunLength(recs, Root(recs[0]));
      var gs := Groups(recs);
      var rest := Groups(recs[n..]);
      GroupsBoundaries(recs[n..]);
      GroupsShareRoot(recs);
      assert gs == [recs[..n]] + rest;
      forall k | 0 <= k < |gs| - 1
        ensures Root(gs[k][|gs[k]| - 1]) != Root(gs[k + 1][0])
      {
        if k == 0 {
          assert gs[1] == rest[0] == recs[n..][..RunLength(recs[n..], Root(recs[n]))];
          assert gs[1][0] == recs[n];
          assert Root(gs[0][|gs[0]| - 1]) == Root(gs[0][0]) == Root(recs[0]);
        } else {
          assert gs[k] == rest[k - 1] && gs[k + 1] == rest[k];
        }
      }
    }
  }

  /** The adds of one group, in order. */
  function Build(cfg: Config, schema: Schema, g: Gen, recs: seq<Record>): (r: Step<Gen>)
    requires |g.data| >= 1
    ensures r.Next? ==> |r.value.data| >= 1
    decreases |recs|
  {
    if |recs| == 0 then Next(g)
    else
      match AddStep(cfg, schema, g, Path(recs[0]), recs[0].value)
      case Next(g2) => Build(cfg, schema, g2, recs[1..])
      case Raised => Raised
      case Hangs => Hangs
  }

  /** The run as a whole: every group gets a fresh `StructGen` and its adds,
      except that the first record of the first group is not added; every
      group but the last is then finished and written. */
  function RunGroups(cfg: Config, schema: Schema, renames: map<string, string>, filter: Filter,
                     groups: seq<seq<Record>>, first: bool): Step<seq<string>>
    requires forall k :: 0 <= k < |groups| ==> |groups[k]| >= 1
    decreases |groups|, 0
  {
    if |groups| == 0 then Next([])
    else
      var o := NewOpen(cfg, renames, Path(groups[0][0]));
      var adds := if first then groups[0][1..] else groups[0];
      Closed(cfg, schema, renames, filter, o.name, Build(cfg, schema, o.gen, adds), groups[1..])
  }

  /** After a group's adds: a failure ends the run; otherwise, unless it was
      the last group, its struct is finished and written before the rest. */
  function Closed(cfg: Config, schema: Schema, renames: map<string, string>, filter: Filter,
                  name: string, built: Step<Gen>, rest: seq<seq<Record>>): Step<seq<string>>
    requires built.Next? ==> |built.value.data| >= 1
    requires forall k :: 0 <= k < |rest| ==> |rest[k]| >= 1
    decreases |rest|, 1
  {
    match built
    case Next(g) =>
      if |rest| == 0 then Next([])
      else After(FinishOutput(name, filter, FinishData(cfg, g)), RunGroups(cfg, schema, renames, filter, rest, false))
    case Raised => Raised
    case Hangs => Hangs
  }

  /** A held `StructGen` takes the leading records with its root, and is
      finished when a record with another root arrives. */
  lemma DriveFrom(cfg: Config, schema: Schema, renames: map<string, string>, filter: Filter,
                  recs: seq<Record>, o: Open)
    requires |o.gen.data| >= 1
    ensures var n := RunLength(recs, o.root);
            Drive(cfg, schema, renames, filter, recs, Some(o))
            == Closed(cfg, schema, renames, filter, o.name, Build(cfg, schema, o.gen, recs[..n]), Groups(recs[n..]))
    decreases |recs|, 1
  {
    if |recs| == 0 {
      assert recs[..0] == [] && recs[0..] == [];
    } else if Root(recs[0]) == o.root {
      DriveFromSame(cfg, schema, renames, filter, recs, o);
    } else {
      DriveFromSwitch(cfg, schema, renames, filter, recs, o);
    }
  }

  /** A record with the held root is added to the held `StructGen`. */
  lemma DriveFromSame(cfg: Config, schema: Schema, renames: map<string, string>, filter: Filter,
                      recs: seq<Record>, o: Open)
    requires |o.gen.data| >= 1 && |recs| >= 1 && Root(recs[0]) == o.root
    ensures var n := RunLength(recs, o.root);
            Drive(cfg, schema, renames, filter, recs, Some(o))
            == Closed(cfg, schema, renames, filter, o.name, Build(cfg, schema, o.gen, recs[..n]), Groups(recs[n..]))
    decreases |recs|, 0
  {
    var n := RunLength(recs, o.root);
    var n' := RunLength(recs[1..], o.root);
    assert n == 1 + n';
    var path := Path(recs[0]);
    var step := AddStep(cfg, schema, o.gen, path, recs[0].value);
    assert recs[..n][0] == recs[0] && recs[..n][1..] == recs[1..][..n'];
    assert recs[n..] == recs[1..][n'..];
    if step.Next? {
      var o' := o.(gen := step.value);
      assert Drive(cfg, schema, renames, filter, recs, Some(o))
             == Drive(cfg, schema, renames, filter, recs[1..], Some(o'));
      assert Build(cfg, schema, o.gen, recs[..n]) == Build(cfg, schema, step.value, recs[1..][..n']);
      DriveFrom(cfg, schema, renames, filter, recs[1..], o');
    }
  }

  /** A record with a new root finishes the held `StructGen`, then starts
      the next group. */
  lemma DriveFromSwitch(cfg: Config, schema: Schema, renames: map<string, string>, filter: Filter,
                        recs: seq<Record>, o: Open)
    requires |o.gen.data| >= 1 && |recs| >= 1 && Root(recs[0]) != o.root
    ensures var n := RunLength(recs, o.root);
            Drive(cfg, schema, renames, filter, recs, Some(o))
            == Closed(cfg, schema, renames, filter, o.name, Build(cfg, schema, o.gen, recs[..n]), Groups(recs[n..]))
    decreases |recs|, 0
  {
    var path := Path(recs[0]);
    assert RunLength(recs, o.root) == 0;
    assert recs[..0] == [] && recs[0..] == recs;
    var written := FinishOutput(o.name, filter, FinishData(cfg, o.gen));
    var o2 := NewOpen(cfg, renames, path);
    var m' := RunLength(recs[1..], path[0]);
    RunGroupsHead(cfg, schema, renames, filter, recs);
    assert Closed(cfg, schema, renames, filter, o.name, Next(o.gen), Groups(recs))
           == After(written, RunGroups(cfg, schema, renames, filter, Groups(recs), false));
    var step := AddStep(cfg, schema, o2.gen, path, recs[0].value);
    if step.Next? {
      var o3 := o2.(gen := step.value);
      assert Drive(cfg, schema, renames, filter, recs, Some(o))
             == After(written, Drive(cfg, schema, renames, filter, recs[1..], Some(o3)));
      DriveFrom(cfg, schema, renames, filter, recs[1..], o3);
    }
  }

  /** The first group of a run that is not the first: all of its records
      are added to a fresh `StructGen`. */
  lemma RunGroupsHead(cfg: Config, schema: Schema, renames: map<string, string>, filter: Filter,
                      recs: seq<Record>)
    requires |recs| >= 1
    ensures var path := Path(recs[0]);
            var o2 := NewOpen(cfg, renames, path);
            var m' := RunLength(recs[1..], path[0]);
            RunGroups(cfg, schema, renames, filter, Groups(recs), false)
            == match AddStep(cfg, schema, o2.gen, path, recs[0].value)
               case Next(g) => Closed(cfg, schema, renames, filter, o2.name, Build(cfg, schema, g, recs[1..][..m']),
                                      Groups(recs[1..][m'..]))
               case Raised => Raised
               case Hangs => Hangs
  {
    var path := Path(recs[0]);
    var m := RunLength(recs, path[0]);
    var m' := RunLength(recs[1..], path[0]);
    assert m == 1 + m';
    var gs := Groups(recs);
    assert gs == [recs[..m]] + Groups(recs[m..]);
    assert gs[0][0] == recs[0] && gs[1..] == Groups(recs[m..]);
    assert recs[..m][0] == recs[0] && recs[..m][1..] == recs[1..][..m'];
    assert recs[m..] == recs[1..][m'..];
  }

  /** The record loop is the group-by-group run over the maximal runs of
      records with one root. */
  lemma DriveIsRunGroups(cfg: Config, schema: Schema, renames: map<string, string>, filter: Filter,
                         recs: seq<Record>)
    ensures Drive(cfg, schema, renames, filter, recs, None)
            == RunGroups(cfg, schema, renames, filter, Groups(recs), true)
  {
    if |recs| > 0 {
      var path := Path(recs[0]);
      var o := NewOpen(cfg, renames, path);
      var m := RunLength(recs, path[0]);
      assert m == 1 + RunLength(recs[1..], path[0]);
      assert Groups(recs) == [recs[..m]] + Groups(recs[m..]);
      assert recs[..m][1..] == recs[1..][..m - 1];
      assert recs[m..] == recs[1..][m - 1..];
      DriveFrom(cfg, schema, renames, filter, recs[1..], o);
    }
  }

  /** An export whose records all share one root writes only the header and
      the trailer: its only struct is never finished. */
  lemma OneGroupWritesNothing(p: Params, schema: Schema, recs: seq<Record>)
    requires |Groups(recs)| <= 1
    requires Generate(p, schema, recs).Next?
    ensures Generate(p, schema, recs).value == HeadText(p) + EndText()
  {
    var renames := RenameTable(p.customDefineDict).value;
    var cfg := ConfigOf(p);
    var filter := EffectiveFilter(p, schema);
    OneGroupDrive(cfg, schema, renames, filter, recs);
    assert Text([]) == "";
  }

  lemma OneGroupDrive(cfg: Config, schema: Schema, renames: map<string, string>, filter: Filter, recs: seq<Record>)
    requires |Groups(recs)| <= 1
    ensures Drive(cfg, schema, renames, filter, recs, None).Next? ==> Drive(cfg, schema, renames, filter, recs, None).value == []
  {
    DriveIsRunGroups(cfg, schema, renames, filter, recs);
    var gs := Groups(recs);
    if |gs| == 1 {
      var o := NewOpen(cfg, renames, Path(gs[0][0]));
      assert gs[1..] == [];
      assert RunGroups(cfg, schema, renames, filter, gs, true)
             == Closed(cfg, schema, renames, filter, o.name, Build(cfg, schema, o.gen, gs[0][1..]), []);
    }
  }
}
