# pqtools_to_code, modelled in Dafny

This project models the code generator in `tools/pqtools_to_code/pqtools_to_code.py`.
The generator reads the XML that the PQTools tuning tool exports, a schema of
STRUCT/MEMBER records plus a flat list of SAVE_DATA (PATH, VALUE) records, and
writes a C header. That header declares one statically initialised struct
instance per top-level struct, with nested braces, comments, bit-field
designators, and array values wrapped to a maximum line width.

The model has three parts:

- **The schema index** (class `DataStruct`): `data_struct.dfy`. It covers
  struct lookup by ID, the member walk along a dotted path, and the BITS, TITLE
  (row/column shape) and type-width queries. These are pure functions over the
  parsed schema, and each of the source's failure paths is a distinct outcome.
  A miss (`None` in Python) is `Miss`, and a `KeyError` is `Fault`.
- **The emitter** (class `StructGen`): `braces.dfy`, `line_wrap.dfy`,
  `struct_gen_spec.dfy` and `struct_gen.dfy`.
  - The first three state what `change_key`, `long_str_append`, `add` and
    `finish` do, as functions on the emitter's state: the line buffer, the
    brace depth, the previous path and the add counter.
  - `struct_gen.dfy` is the class itself. Its fields are updated in place by
    methods with `while`/`for` loops, and each method is proved equal to the
    specification function of the old state.
- **Brace balance**: `brace_balance.dfy`. It counts `{` minus `}` over the
  buffer, proves that `add` keeps that count equal to the depth, and proves
  that `finish` brings it to 0, with the one exception of Findings.
- **The driver** (`generate_code`): `pq_tools_to_code.dfy`. It covers the
  include guard, the header and trailer texts, the one-entry rename table, the
  default struct filter, and the loop that hands each SAVE_DATA record to the
  current `StructGen`. The loop is a method over `StructGen` objects. It is
  proved equal to a recursive function `Drive`, which in turn is proved equal
  to a reference definition that first cuts the records into runs with the
  same root segment (`Groups`).

Python builtins (`split`, `join`, `replace`, `upper`, `capitalize`, `rfind`,
slicing, `isdigit`) are modelled for ASCII in `py_str.dfy`. A run that raises
an exception ends in `Raised`, and a loop that never ends ends in `Hangs`
(`outcomes.dfy`).

Behaviours of the source that the model keeps as written:

- When a later struct shares an ID with an earlier one, the index keeps the
  later one.
- While walking an intermediate path segment, the last member with a matching
  ID sets the type.
- A path that is a prefix of the previous path (or equal to it) raises,
  because the divergence loop never sets `key`.
- The first `add` of a struct removes buffer line 1, and that raises when the
  buffer has only one line.
- When brackets close, every closing line except the last loses its comma.
- A closing step drops the last character of the buffer's last line, whatever
  that character is. A suppressed bit field (see `need_remove_item`) emits no
  line. When it is the first member of a nested struct, the last line is that
  struct's opening `{`, so the next close drops the brace. The finished struct
  then has one `}` more than it has `{`
  (`BraceBalance.SuppressedFieldUnbalances`; see Findings). When no value is
  suppressed and no value or name holds a brace, the finished struct is
  balanced (`BraceBalance.StructBalanced`).
- `long_str_append` lowers its counter only by the length of the piece it
  cuts, so the indentation it puts back is not counted. The last line can
  therefore be longer than the maximum (`LineWrap.LastLineCanExceedWidth`).
  The loop never ends when the first window of the text has no comma.
- `generate_code` only constructs a `StructGen` for the first record of each
  run. It does not add that record's value.
- The struct still open at the end of the loop is never finished. So with at
  most one run of records, nothing is written between the header and the
  trailer (`PQtoolsToCode.OneGroupWritesNothing`).
- The rename table is split from `custom_define_dict`. The default value of
  that parameter (lines 26-31) contains no colon, so indexing the second
  piece raises (`PQtoolsToCode.NoColonRaises`).

## Model

| member | source | states |
|---|---|---|
| PyStr.Spaces | tools/pqtools_to_code/pqtools_to_code.py:177 | `" " * n` is exactly n space characters |
| PyStr.RepeatLength | tools/pqtools_to_code/pqtools_to_code.py:207 | `TAB_SPACE*level` has length tab width times level |
| PyStr.DropLast | tools/pqtools_to_code/pqtools_to_code.py:212 | `s[:-1]` drops exactly the last character, and leaves the empty string empty |
| PyStr.Slice | tools/pqtools_to_code/pqtools_to_code.py:286 | a Python slice clamps its bounds: it gives the stated length and the elements from the start index on |
| PyStr.SplitPieces | tools/pqtools_to_code/pqtools_to_code.py:279 | no piece of `s.split(c)` contains `c` |
| PyStr.SplitSingle | tools/pqtools_to_code/pqtools_to_code.py:127-129 | `s.split(c)` has exactly one piece if and only if `c` does not occur in `s` |
| PyStr.SplitWithoutSeparator | tools/pqtools_to_code/pqtools_to_code.py:127 | splitting a string without the separator gives the string itself as the only piece |
| PyStr.SplitAtFirst | tools/pqtools_to_code/pqtools_to_code.py:127 | the first piece is the text before the first separator, and the rest is the split of the text after it |
| PyStr.JoinSplit | tools/pqtools_to_code/pqtools_to_code.py:279-280 | `r.join(s.split(c))` equals `s` with every `c` replaced by `r` |
| PyStr.SplitJoinRoundTrip | tools/pqtools_to_code/pqtools_to_code.py:279-280 | joining the pieces of `s.split(c)` with `c` gives `s` back |
| PyStr.ReplaceCharLength | tools/pqtools_to_code/pqtools_to_code.py:117 | replacing each `c` by `r` changes the length by `count(c) * (len(r) - 1)` |
| PyStr.UpperChar | tools/pqtools_to_code/pqtools_to_code.py:117 | the result is never a lower-case letter; a lower-case letter becomes its upper-case counterpart, 32 code points lower, and every other character is unchanged |
| PyStr.Upper | tools/pqtools_to_code/pqtools_to_code.py:117 | `upper()` keeps the length and maps each character by UpperChar |
| PyStr.LowerChar | tools/pqtools_to_code/pqtools_to_code.py:193 | the result is never an upper-case letter; an upper-case letter becomes its lower-case counterpart, 32 code points higher, and every other character is unchanged |
| PyStr.Lower | tools/pqtools_to_code/pqtools_to_code.py:193 | `lower()` keeps the length and maps each character by LowerChar |
| PyStr.Capitalize | tools/pqtools_to_code/pqtools_to_code.py:193 | `capitalize()` keeps the length, upper-cases the first character and lower-cases every other one |
| PyStr.CapitalizeAll | tools/pqtools_to_code/pqtools_to_code.py:193 | `map(capitalize, parts)` capitalises each part in place |
| PyStr.CamelRef | tools/pqtools_to_code/pqtools_to_code.py:193 | the one-pass reference for the camel-case name contains no underscore, and is shorter by the number of underscores |
| PyStr.CamelCaseIsCamelRef | tools/pqtools_to_code/pqtools_to_code.py:193 | `"".join(map(capitalize, s.split("_")))` equals the one-pass reference, so it has no underscore and is shorter by the number of underscores |
| PyStr.RFind | tools/pqtools_to_code/pqtools_to_code.py:309 | `rfind` gives the last index holding the character, or -1 when there is none |
| DataStruct.StructIndex | tools/pqtools_to_code/pqtools_to_code.py:335-338 | the index entry for an ID is the last struct with that ID; there is no entry exactly when no struct has that ID |
| DataStruct.StructIds | tools/pqtools_to_code/pqtools_to_code.py:336-339 | `mlist` lists the IDs of all structs, in document order |
| DataStruct.FirstMember | tools/pqtools_to_code/pqtools_to_code.py:403-406 | the final-segment lookup returns the first member with that ID, and fails exactly when no member has it |
| DataStruct.TypeAfter | tools/pqtools_to_code/pqtools_to_code.py:403-408 | an intermediate segment takes its type from the last member with that ID, or keeps the old type when no member matches |
| DataStruct.ResolveFindsFinalSegment | tools/pqtools_to_code/pqtools_to_code.py:398-409 | a member the path walk finds has the path's final segment (subscript stripped) as its ID, and belongs to a struct of the schema |
| DataStruct.MemberBit | tools/pqtools_to_code/pqtools_to_code.py:393-409 | `get_member_bit` misses for an unknown root, and on a hit returns the BITS of a member named by the final segment |
| DataStruct.ParseTitle | tools/pqtools_to_code/pqtools_to_code.py:354-364 | a TITLE with two `;` parts whose counts before `(` are digits gives `(row, col)`; any other TITLE gives `(1, -1)` |
| DataStruct.ParseTitleMatrix | tools/pqtools_to_code/pqtools_to_code.py:354-362 | every TITLE `a(x;b(y` with no `;` except the middle one and no `(` in a or b gives `(int(a), int(b))` when a and b are digit strings, and `(1, -1)` otherwise |
| DataStruct.ParseTitleExample | tools/pqtools_to_code/pqtools_to_code.py:354-360 | `"4(rows);8(cols)"` gives `(4, 8)` |
| DataStruct.ParseTitleSingle | tools/pqtools_to_code/pqtools_to_code.py:354-364 | every TITLE with no `;`, the empty one included, gives `(1, -1)` |
| DataStruct.MemberCount | tools/pqtools_to_code/pqtools_to_code.py:341-367 | `get_member_count` misses for an unknown root; on a hit it returns the parsed TITLE of the member named by the final segment, either `(1, -1)` or two non-negative counts |
| DataStruct.MemberLen | tools/pqtools_to_code/pqtools_to_code.py:369-391 | `get_member_len` never returns None; its width is 0, 8, 16, 32 or 64, and an unknown root is measured by its own name |
| DataStruct.ResolveIsWalk | tools/pqtools_to_code/pqtools_to_code.py:398-409 | the walk of `get_member_bit` and `get_member_count` is the type walk over the segments before the last, followed by a lookup of the last segment in the struct that walk reaches |
| DataStruct.WalkTypeLast | tools/pqtools_to_code/pqtools_to_code.py:374-381 | the whole type walk of `get_member_len` is the walk over the segments before the last, plus one step for the last segment |
| DataStruct.MemberBitIsReference | tools/pqtools_to_code/pqtools_to_code.py:393-409 | for a known root, `get_member_bit` returns the BITS of the first member named by the last segment in the struct the walk reaches; it misses exactly when there is no such member or the path has one segment, and faults exactly when a type reached on the way is not a struct |
| DataStruct.MemberCountIsReference | tools/pqtools_to_code/pqtools_to_code.py:341-367 | for a known root, `get_member_count` returns the parsed TITLE of that same member, with the same miss and fault cases |
| DataStruct.MemberLenIsReference | tools/pqtools_to_code/pqtools_to_code.py:369-391 | `get_member_len` measures the root for a one-segment path; otherwise it measures the type of the last member named by the last segment in the struct the walk reaches, or that struct's name when none matches, and faults exactly when a reached type is not a struct |
| Braces.OpenLines | tools/pqtools_to_code/pqtools_to_code.py:206-208 | opening from depth lo to depth hi appends hi-lo lines, the j-th being `TAB*(lo+j) + "{"` |
| Braces.OpenLinesSnoc | tools/pqtools_to_code/pqtools_to_code.py:206-208 | one more turn of the opening loop appends one more opening line |
| Braces.CloseLinesStructure | tools/pqtools_to_code/pqtools_to_code.py:209-213 | closing keeps the earlier lines, drops the last character of the last line, then appends the closing run |
| Braces.ClosingRunShape | tools/pqtools_to_code/pqtools_to_code.py:209-213 | the closing run has level-key lines: all are `TAB*d + "}"` except the last, which is `TAB*key + "},"` |
| Braces.CloseLinesShape | tools/pqtools_to_code/pqtools_to_code.py:209-213 | the closed form of the closing loop, stated line by line |
| Braces.CloseLinesLength | tools/pqtools_to_code/pqtools_to_code.py:209-213 | closing from level to key adds level-key lines |
| Braces.CloseLinesKeepsPrefix | tools/pqtools_to_code/pqtools_to_code.py:209-213 | closing never changes any line before the last one |
| Braces.ChangeKeyData | tools/pqtools_to_code/pqtools_to_code.py:201-213 | `change_key` changes the line count by the depth difference; going deeper only appends opening lines, and going up keeps every line before the last |
| BraceBalance.OpenLinesNet | tools/pqtools_to_code/pqtools_to_code.py:206-208 | the opening loop adds one `{` per level it opens |
| BraceBalance.ClosingRunNet | tools/pqtools_to_code/pqtools_to_code.py:209-213 | each line of the closing run adds one `}` |
| BraceBalance.CloseLinesNet | tools/pqtools_to_code/pqtools_to_code.py:209-213 | when the last line ends in a comma, closing from level to key lowers the brace count (`{` minus `}`) by level-key |
| BraceBalance.ChangeKeyNet | tools/pqtools_to_code/pqtools_to_code.py:201-213 | `change_key` moves the brace count by key-level, provided a closing finds a last line ending in a comma |
| BraceBalance.ChangeKeyEndsInComma | tools/pqtools_to_code/pqtools_to_code.py:209-213 | after a closing `change_key` the last line ends in a comma |
| BraceBalance.WrapLoopNet | tools/pqtools_to_code/pqtools_to_code.py:304-316 | the wrapped lines together count the braces of the long string, and the last one ends in its final comma |
| BraceBalance.WrapNet | tools/pqtools_to_code/pqtools_to_code.py:297-316 | `long_str_append` of a brace-free value adds balanced lines that end in a comma |
| BraceBalance.ValueLinesBraces | tools/pqtools_to_code/pqtools_to_code.py:254-295 | the lines of a brace-free value balance and end in a comma, and there are none exactly when the value is a suppressed bit field |
| BraceBalance.ListNet | tools/pqtools_to_code/pqtools_to_code.py:289-295 | the comment and the wrapped items of a brace-free list value balance, and the last line ends in a comma |
| BraceBalance.MatrixNet | tools/pqtools_to_code/pqtools_to_code.py:282-288 | the comment, `{`, the wrapped rows and `},` of a brace-free matrix value balance, and the last line ends in a comma |
| BraceBalance.HeaderNet | tools/pqtools_to_code/pqtools_to_code.py:193-199 | with a brace-free struct name and product ID, the declaration line opens exactly one brace |
| BraceBalance.FirstAddBalance | tools/pqtools_to_code/pqtools_to_code.py:215-295 | after the first add of a struct, the brace count equals the depth |
| BraceBalance.AddKeepsBalance | tools/pqtools_to_code/pqtools_to_code.py:215-295 | a later add keeps the brace count equal to the depth, provided its first `change_key` has nothing to close or finds a last line ending in a comma; the buffer then ends in a comma unless the value was suppressed |
| BraceBalance.FinishBalanced | tools/pqtools_to_code/pqtools_to_code.py:318-324 | `finish` on a buffer whose brace count is its depth, and whose last line ends in a comma, leaves as many `}` as `{` |
| BraceBalance.BuildKeepsBalance | tools/pqtools_to_code/pqtools_to_code.py:160-161 | adding records with no brace and no suppressed bit field keeps the brace count equal to the depth |
| BraceBalance.StructBalanced | tools/pqtools_to_code/pqtools_to_code.py:174-324 | a struct built from such records and then finished has as many `}` as `{` |
| BraceBalance.SuppressedFieldUnbalances | tools/pqtools_to_code/pqtools_to_code.py:209-213 | the Findings input: after `S.c.rb = 0` (suppressed) and `S.d = 5` the buffer is `H`, `" "`, `" },"`, `" // d"`, `" 5,"`; its brace count is one below the depth, and after `finish` there is one `}` too many |
| BraceBalance.CloseLinesFixedNet | tools/pqtools_to_code/pqtools_to_code.py:209-213 | a closing step that drops only a final comma lowers the brace count by one per level, on every buffer |
| BraceBalance.CloseLinesFixedAgrees | tools/pqtools_to_code/pqtools_to_code.py:209-213 | wherever the last line ends in a comma, that corrected closing equals the closing as written |
| BraceBalance.FixedKeepsOpeningBrace | tools/pqtools_to_code/pqtools_to_code.py:209-213 | on the Findings buffer, the corrected closing keeps the `{` of the nested struct |
| LineWrap.Window | tools/pqtools_to_code/pqtools_to_code.py:308 | `long_str[0:MAX]` is the prefix of length min(MAX, len) |
| LineWrap.CutIndex | tools/pqtools_to_code/pqtools_to_code.py:308-309 | the cut index is -1 or the position of a comma within the window |
| LineWrap.LastComma | tools/pqtools_to_code/pqtools_to_code.py:309 | the right-to-left scan returns -1 or the position of a comma before its bound |
| LineWrap.LastCommaIsRFind | tools/pqtools_to_code/pqtools_to_code.py:309 | the scan equals `rfind(',')` on the prefix |
| LineWrap.LastCommaNone | tools/pqtools_to_code/pqtools_to_code.py:309 | the scan returns -1 exactly when the prefix has no comma |
| LineWrap.CutIndexIsRFind | tools/pqtools_to_code/pqtools_to_code.py:308-309 | the cut index equals `long_str[0:MAX].rfind(',')` |
| LineWrap.WrapLoopStep | tools/pqtools_to_code/pqtools_to_code.py:307-313 | while the counter exceeds MAX, a finishing loop cuts after a comma, emits the piece, and continues on the indentation plus the rest, with the counter lowered by the piece's length |
| LineWrap.WrapLoopCut | tools/pqtools_to_code/pqtools_to_code.py:307-313 | the emitted piece is the window up to and including its last comma |
| LineWrap.WrapLoopLast | tools/pqtools_to_code/pqtools_to_code.py:314-316 | once the counter is at most MAX, the remaining text is emitted whole and the loop stops |
| LineWrap.CommaAfterIndent | tools/pqtools_to_code/pqtools_to_code.py:304-312 | the cut never falls inside the indentation |
| LineWrap.WrapLoopRejoins | tools/pqtools_to_code/pqtools_to_code.py:304-316 | removing the indentation added to every line after the first, and concatenating, gives the long string back |
| LineWrap.WrapRoundTrip | tools/pqtools_to_code/pqtools_to_code.py:304-316 | the lines of `long_str_append` rejoin to `TAB*level + "{" + s + "},"`, and each starts with the indentation |
| LineWrap.WrapLoopIndented | tools/pqtools_to_code/pqtools_to_code.py:304-316 | every emitted line starts with the indentation |
| LineWrap.WrapLoopCutLines | tools/pqtools_to_code/pqtools_to_code.py:307-313 | every line but the last is non-empty, at most MAX long, and ends with a comma |
| LineWrap.WrapLoopLastLine | tools/pqtools_to_code/pqtools_to_code.py:305-316 | the last line exceeds MAX by at most the indentation times the number of cuts |
| LineWrap.WrapWidths | tools/pqtools_to_code/pqtools_to_code.py:304-316 | the width bounds of `long_str_append`: cut lines fit MAX and end in a comma, and the last line is bounded as above |
| LineWrap.LastLineCanExceedWidth | tools/pqtools_to_code/pqtools_to_code.py:304-316 | with indentation "  ", value "1, 2" and MAX 5, the last line `"   2},"` is longer than MAX |
| LineWrap.NoCommaWindowPersists | tools/pqtools_to_code/pqtools_to_code.py:307-312 | a window without a comma stays without one after the indentation is put back in front, which is why the loop never ends |
| LineWrap.NoCommaValue | tools/pqtools_to_code/pqtools_to_code.py:304-316 | a value without commas ends exactly when its long string fits MAX, and is then emitted as one line |
| StructGenSpec.IndIsSpaces | tools/pqtools_to_code/pqtools_to_code.py:177 | the indentation for a level is tab width times level spaces |
| StructGenSpec.IndPrefix | tools/pqtools_to_code/pqtools_to_code.py:207 | a shallower indentation is a prefix of a deeper one, and no indentation contains a comma |
| StructGenSpec.InstanceNameShape | tools/pqtools_to_code/pqtools_to_code.py:193-199 | the instance name is `"g_" + capitalize(product_id)` followed by the camel-case struct name minus its last character, with no underscore |
| StructGenSpec.HeaderLineShape | tools/pqtools_to_code/pqtools_to_code.py:194-199 | the first buffer line ends in `{`, and starts with `static const ` exactly when `is_const` is set |
| StructGenSpec.DeclarationShape | tools/pqtools_to_code/pqtools_to_code.py:194-199 | the same two facts for any struct and instance name |
| StructGenSpec.DeclarationText | tools/pqtools_to_code/pqtools_to_code.py:194-199 | the const and non-const declaration lines, spelled out |
| StructGenSpec.DivergeIndex | tools/pqtools_to_code/pqtools_to_code.py:222-230 | the first key is the first index where the path differs from the previous path; the paths agree before it |
| StructGenSpec.DivergeIndexUnique | tools/pqtools_to_code/pqtools_to_code.py:222-230 | any index with those properties is the divergence index |
| StructGenSpec.BracketsUpTo | tools/pqtools_to_code/pqtools_to_code.py:244-246 | the subscript count of a path prefix is at most its length |
| StructGenSpec.RepeatsUpTo | tools/pqtools_to_code/pqtools_to_code.py:232-238 | the array correction of the first key never exceeds the number of subscripted segments |
| StructGenSpec.BracketsMonotone | tools/pqtools_to_code/pqtools_to_code.py:244-246 | the subscript count grows with the prefix |
| StructGenSpec.FirstTargetOfFirstAdd | tools/pqtools_to_code/pqtools_to_code.py:222-238 | for the first add of a struct, the first `change_key` target is 0 |
| StructGenSpec.FirstTargetWithinFinal | tools/pqtools_to_code/pqtools_to_code.py:222-247 | the first `change_key` target is never deeper than the second |
| StructGenSpec.RowsCoverValues | tools/pqtools_to_code/pqtools_to_code.py:283-287 | the first k rows of `num[i*col:(i+1)*col]` are together `num[:k*col]` |
| StructGenSpec.RowLinesPrefix | tools/pqtools_to_code/pqtools_to_code.py:285-287 | if all k rows wrap, so do the first j |
| StructGenSpec.RowLinesSnoc | tools/pqtools_to_code/pqtools_to_code.py:285-287 | one more row appends that row's wrapped lines |
| StructGenSpec.RowLinesIndented | tools/pqtools_to_code/pqtools_to_code.py:285-287 | every row line starts with the row indentation |
| StructGenSpec.ValueLinesIndented | tools/pqtools_to_code/pqtools_to_code.py:254-295 | every line a value emits starts with the indentation of its level |
| StructGenSpec.ListLinesIndented | tools/pqtools_to_code/pqtools_to_code.py:289-295 | the same for list values |
| StructGenSpec.MatrixLinesIndented | tools/pqtools_to_code/pqtools_to_code.py:282-288 | the same for matrix values |
| StructGenSpec.ListValueRoundTrip | tools/pqtools_to_code/pqtools_to_code.py:271-295 | a comma-separated value with one row, or with no shape, emits the `// name` comment, then lines that rejoin to `{` + the value with `, ` between items + `},` |
| StructGenSpec.RemovedBitField | tools/pqtools_to_code/pqtools_to_code.py:263-268 | a scalar bit-field member named like `need_remove_item` emits nothing |
| StructGenSpec.AddStep | tools/pqtools_to_code/pqtools_to_code.py:215-295 | `add` raises when the path is a prefix of the previous path; otherwise it leaves the depth at the final target, records the path and counts the add |
| StructGenSpec.AddStepNext | tools/pqtools_to_code/pqtools_to_code.py:215-253 | a successful `add` runs both `change_key` calls, drops line 1 on the first add, then appends the value's lines |
| StructGenSpec.AddShape | tools/pqtools_to_code/pqtools_to_code.py:240-251 | the second `change_key` only opens, so a successful add appends opening lines to the first `change_key`'s result |
| StructGenSpec.FirstAdd | tools/pqtools_to_code/pqtools_to_code.py:240-253 | the first add to a fresh struct raises exactly when its target depth is 0 or its value raises; otherwise, when the value succeeds, it gives the header line, the opening lines from depth 1, and the value's lines |
| StructGenSpec.FinishData | tools/pqtools_to_code/pqtools_to_code.py:318-324 | `finish` adds one line per open level, keeps every earlier line, and ends the buffer with `};` |
| StructGenSpec.FinishShape | tools/pqtools_to_code/pqtools_to_code.py:323-324 | at depth 0 the last line becomes `};`; otherwise the closing lines are as `change_key(0)` writes them |
| StructGenSpec.FilterTextMatchesParts | tools/pqtools_to_code/pqtools_to_code.py:325 | a filter given as text matches substrings, while a filter given as a list matches whole names |
| StructGenImpl.FirstKey | tools/pqtools_to_code/pqtools_to_code.py:222-238 | the two loops of `add` compute the first `change_key` target |
| StructGenImpl.FinalKey | tools/pqtools_to_code/pqtools_to_code.py:241-246 | the third loop computes the second `change_key` target |
| StructGenImpl.StructGen.constructor | tools/pqtools_to_code/pqtools_to_code.py:174-199 | the struct name is the root, renamed through the table; the state is the declaration line at depth 0 with no previous path |
| StructGenImpl.StructGen.ChangeKey | tools/pqtools_to_code/pqtools_to_code.py:201-213 | the buffer becomes ChangeKeyData of the old buffer, and the depth becomes the key |
| StructGenImpl.StructGen.OpenTo | tools/pqtools_to_code/pqtools_to_code.py:206-208 | the opening loop appends OpenLines |
| StructGenImpl.StructGen.CloseTo | tools/pqtools_to_code/pqtools_to_code.py:209-213 | the closing loop turns the buffer into CloseLines |
| StructGenImpl.StructGen.AppendWrapped | tools/pqtools_to_code/pqtools_to_code.py:304-316 | the `while` loop appends exactly the lines of WrapLoop |
| StructGenImpl.StructGen.LongStrAppend | tools/pqtools_to_code/pqtools_to_code.py:297-316 | `long_str_append` appends the lines of Wrap and changes nothing else |
| StructGenImpl.StructGen.EmitValue | tools/pqtools_to_code/pqtools_to_code.py:254-295 | appends the value's lines |
| StructGenImpl.StructGen.EmitScalar | tools/pqtools_to_code/pqtools_to_code.py:254-269 | appends the lines of a value without commas |
| StructGenImpl.StructGen.EmitArray | tools/pqtools_to_code/pqtools_to_code.py:271-295 | appends the lines of a comma-separated value |
| StructGenImpl.StructGen.EmitList | tools/pqtools_to_code/pqtools_to_code.py:289-295 | appends the comment and the wrapped list |
| StructGenImpl.StructGen.EmitMatrix | tools/pqtools_to_code/pqtools_to_code.py:282-288 | appends the comment, `{`, the rows and `},` |
| StructGenImpl.StructGen.EmitRows | tools/pqtools_to_code/pqtools_to_code.py:285-287 | the `for` loop appends every row's wrapped lines |
| StructGenImpl.StructGen.Add | tools/pqtools_to_code/pqtools_to_code.py:215-295 | the new state is AddStep of the old state |
| StructGenImpl.StructGen.Finish | tools/pqtools_to_code/pqtools_to_code.py:318-329 | the buffer becomes FinishData of the old state, and the lines written are the buffer plus an empty line when the name passes the filter, otherwise nothing |
| PQtoolsToCode.Basename | tools/pqtools_to_code/pqtools_to_code.py:114 | `filename.split('/')[-1]` is the suffix after the last `/`, or the whole name when there is none |
| PQtoolsToCode.SplitLastPiece | tools/pqtools_to_code/pqtools_to_code.py:114 | the last piece of a split is a separator-free suffix, preceded by a separator unless it is the whole string |
| PQtoolsToCode.ReplaceCharPointwise | tools/pqtools_to_code/pqtools_to_code.py:117 | replacing one character by another maps the string position by position |
| PQtoolsToCode.FilePartShape | tools/pqtools_to_code/pqtools_to_code.py:117 | the file part of the guard is the base name upper-cased, with `.` turned into `_` |
| PQtoolsToCode.GuardShape | tools/pqtools_to_code/pqtools_to_code.py:117-118 | the guard `_ID_FILE_` has length len(product_id) + len(basename) + 3 and no lower-case letter |
| PQtoolsToCode.RenameTableSpec | tools/pqtools_to_code/pqtools_to_code.py:127-130 | the rename table exists exactly when the text has a colon; `a:b` gives the single entry a→b, and so does `a:b:c`, since the text after a second colon is dropped |
| PQtoolsToCode.NoColonRaises | tools/pqtools_to_code/pqtools_to_code.py:127-130 | without a colon in `custom_define_dict`, the whole run raises |
| PQtoolsToCode.EffectiveFilterPasses | tools/pqtools_to_code/pqtools_to_code.py:144-145 | a non-empty filter text passes names that occur in it; an empty one is replaced by the struct IDs, and passes exactly the schema's struct names |
| PQtoolsToCode.Path | tools/pqtools_to_code/pqtools_to_code.py:152 | a PATH split at `.` has at least one segment |
| PQtoolsToCode.NewOpen | tools/pqtools_to_code/pqtools_to_code.py:157-164 | a new emitter remembers the root, its name is the renamed root, and it starts in the initial state |
| PQtoolsToCode.TextAppend | tools/pqtools_to_code/pqtools_to_code.py:326-329 | writing lines one by one distributes over concatenation |
| PQtoolsToCode.TextLines | tools/pqtools_to_code/pqtools_to_code.py:326-329 | the written text splits at newlines back into the lines, plus a final empty piece |
| PQtoolsToCode.GenerateRun | tools/pqtools_to_code/pqtools_to_code.py:111-170 | a run that ends has a rename table, and its text is the header, the lines the loop writes, and the trailer |
| PQtoolsToCode.GenerateCode | tools/pqtools_to_code/pqtools_to_code.py:111-170 | the method with the record loop over StructGen objects returns the text that Generate specifies |
| PQtoolsToCode.SwitchStruct | tools/pqtools_to_code/pqtools_to_code.py:155-159 | finishing the held emitter writes its FinishOutput; the fresh emitter holds the new root after one add |
| PQtoolsToCode.DriveFirstStep | tools/pqtools_to_code/pqtools_to_code.py:162-164 | the first record only constructs an emitter |
| PQtoolsToCode.DriveSwitchStep | tools/pqtools_to_code/pqtools_to_code.py:155-159 | a record with a new root writes the held struct, then continues with a new emitter that holds the record |
| PQtoolsToCode.DriveSameStep | tools/pqtools_to_code/pqtools_to_code.py:160-161 | a record with the same root is added to the held emitter |
| PQtoolsToCode.RunLength | tools/pqtools_to_code/pqtools_to_code.py:154-161 | the run of records with a given root ends at the end of the list or at a record with another root |
| PQtoolsToCode.RunLengthRoots | tools/pqtools_to_code/pqtools_to_code.py:154-161 | every record within the run has that root |
| PQtoolsToCode.Groups | tools/pqtools_to_code/pqtools_to_code.py:151-164 | the reference cut into runs gives only non-empty runs |
| PQtoolsToCode.GroupsFlatten | tools/pqtools_to_code/pqtools_to_code.py:151-164 | the runs concatenate back to the records |
| PQtoolsToCode.GroupsShareRoot | tools/pqtools_to_code/pqtools_to_code.py:151-164 | all records of a run share the root of its first record |
| PQtoolsToCode.GroupsBoundaries | tools/pqtools_to_code/pqtools_to_code.py:151-164 | neighbouring runs have different roots |
| PQtoolsToCode.Build | tools/pqtools_to_code/pqtools_to_code.py:160-161 | adding a run of records to an emitter keeps its buffer non-empty |
| PQtoolsToCode.DriveFrom | tools/pqtools_to_code/pqtools_to_code.py:151-164 | with an emitter open, the loop adds the rest of its run, then continues with the runs after it |
| PQtoolsToCode.DriveFromSame | tools/pqtools_to_code/pqtools_to_code.py:160-161 | the same, when the next record continues the open run |
| PQtoolsToCode.DriveFromSwitch | tools/pqtools_to_code/pqtools_to_code.py:155-159 | the same, when the next record starts a new run |
| PQtoolsToCode.RunGroupsHead | tools/pqtools_to_code/pqtools_to_code.py:155-159 | a run after the first is built from a new emitter, to which all its records are added |
| PQtoolsToCode.DriveIsRunGroups | tools/pqtools_to_code/pqtools_to_code.py:151-164 | the record loop equals the reference: for each run, construct an emitter, add its records (except the first record of the first run), and write it once the next run starts |
| PQtoolsToCode.OneGroupDrive | tools/pqtools_to_code/pqtools_to_code.py:151-164 | with at most one run, the loop writes no lines |
| PQtoolsToCode.OneGroupWritesNothing | tools/pqtools_to_code/pqtools_to_code.py:151-167 | with at most one run, a run that ends outputs only the header and the trailer |

## Findings

| source | as written | input that shows it | evidently intended | confidence | as-written member | corrected member |
|---|---|---|---|---|---|---|
| tools/pqtools_to_code/pqtools_to_code.py:209-213 | each closing step drops the last character of the last line, taking it to be a value's comma; after a suppressed bit field (lines 263-268) that line can be an opening `{` | tab width 1; struct `S` with members `c: C` and `d`, struct `C` with member `rb` of BITS "1"; `need_remove_item` "rb"; add `S.c.rb = 0`, then `S.d = 5`: the `{` opened for `c` is dropped, and the finished struct has one `}` too many | drop the last character only when it is a comma, so an opening line survives | not executed | BraceBalance.SuppressedFieldUnbalances | BraceBalance.CloseLinesFixedNet |

The emitter model keeps the closing step as written. The corrected step is
`BraceBalance.CloseLinesFixed`. It keeps the brace count tied to the depth on
every buffer (`CloseLinesFixedNet`), and it equals the step as written wherever
the last line ends in a comma (`CloseLinesFixedAgrees`).

## Left out

- The Qt window, its dialogs and `get_params`/`set_params` are not part of this model. The parameters `generate_code` reads are passed in as a value (`PQtoolsToCode.Params`).
- XML parsing (`xml.dom.minidom`) is left out. The schema and the SAVE_DATA records are given already parsed, and an absent attribute is the empty string.
- File I/O is left out: the existence test, `os.remove`, the appends to the output file, and reading it back into the window. The model returns the text the file would hold.
- If a run raises or never ends, the model gives `Raised` or `Hangs`. It does not model the part of the file written before that point.
- `StructGen.__init__` reads `params.output_filename`, which `PQtoolsParams` never defines. The model proceeds as if it were defined, and `finish` returns the lines it would write.
- The `Debug_attr` argument of `add` is left out. It is never passed, and with its default every call goes through.
- The unused fields `last_index`, `tmp_data` and `old_mem_length`, and the `author` and `copyright` parameters, are left out, because they never affect the output.
- `DataStruct.MemberLen` is modelled and has its own contract, but the emitter does not call it, because the call in `add` is commented out.
- Case mapping and `isdigit` cover ASCII only; the Unicode rules of Python's `str` methods are left out.
- PQtoolsToCode.GenerateCode: requires a run that ends; what happens when the run raises or hangs is stated only by `Generate`.
- StructGenImpl.StructGen.Add: requires a successful `AddStep`; the raising and hanging cases are stated by `AddStep` and not by the method.
