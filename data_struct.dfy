/** The read-only schema index built from the export's STRUCT/MEMBER records
    (class DataStruct in tools/pqtools_to_code/pqtools_to_code.py).

    The schema is given already parsed: a list of structs, each with its ID and
    its MEMBER records in document order.  An attribute the export leaves out
    is the empty string, which is what the DOM returns for it.
 */
module DataStruct {
  import opened Outcomes
  import opened PyStr

  datatype Member = Member(id: string, typ: string, bits: string, title: string)

  datatype Struct = Struct(id: string, members: seq<Member>)

  type Schema = seq<Struct>

  /** The `(row, col)` pair get_member_count returns. */
  datatype Shape = Shape(row: int, col: int)

  /** `self.dict[id]`: the constructor stores each struct's position under its
      ID in document order, so a later struct with the same ID wins. */
  function StructIndex(schema: Schema, id: string): (r: Option<nat>)
    ensures r.Some? ==> r.value < |schema| && schema[r.value].id == id
    ensures r.Some? ==> forall j :: r.value < j < |schema| ==> schema[j].id != id
    ensures r.None? <==> forall j :: 0 <= j < |schema| ==> schema[j].id != id
  {
    if |schema| == 0 then None
    else if schema[|schema| - 1].id == id then Some(|schema| - 1)
    else StructIndex(schema[..|schema| - 1], id)
  }

  /** `self.mlist`: the struct IDs in document order. */
  function StructIds(schema: Schema): (ids: seq<string>)
    ensures |ids| == |schema|
    ensures forall j :: 0 <= j < |schema| ==> ids[j] == schema[j].id
  {
    if |schema| == 0 then [] else StructIds(schema[..|schema| - 1]) + [schema[|schema| - 1].id]
  }

  /** A path segment without its subscript: `segment.split('[')[0]`. */
  function MemberName(segment: string): string
  {
    Split(segment, '[')[0]
  }

  /** The first member with the given ID: the inner loop returns at the first match. */
  function FirstMember(members: seq<Member>, id: string): (r: Option<Member>)
    ensures r.Some? ==> r.value in members && r.value.id == id
    ensures r.None? <==> forall m :: m in members ==> m.id != id
    ensures r.Some? ==> exists j :: 0 <= j < |members| && r.value == members[j] &&
                                  forall i :: 0 <= i < j ==> members[i].id != id
  {
    if |members| == 0 then None
    else if members[0].id == id then Some(members[0])
    else FirstMember(members[1..], id)
  }

  /** The type reached after one intermediate segment: the inner loop does not
      stop at a match, so the last member with the ID sets the type, and with
      no match the type stays what it was. */
  function TypeAfter(members: seq<Member>, id: string, typeName: string): (t: string)
    ensures (forall m :: m in members ==> m.id != id) ==> t == typeName
    ensures (exists m :: m in members && m.id == id) ==>
              exists j :: 0 <= j < |members| && members[j].id == id && t == members[j].typ &&
                          forall i :: j < i < |members| ==> members[i].id != id
  {
    if |members| == 0 then typeName
    else
      var t := TypeAfter(members[..|members| - 1], id, typeName);
      var m := members[|members| - 1];
      assert forall x :: x in members[..|members| - 1] ==> x in members;
      if m.id == id then m.typ else t
  }

  /** The loop `for i in range(len(name)-1)` of get_member_bit and
      get_member_count, from iteration `i` on with the current `typeName`.
      It finds the member that the final segment names, returns Miss when the
      loop runs out, and Fault where `self.dict[typeName]` raises KeyError. */
  function Resolve(schema: Schema, name: seq<string>, i: nat, typeName: string): (r: Lookup<Member>)
    decreases |name| - i
  {
    if i + 1 >= |name| then Miss
    else
      match StructIndex(schema, typeName)
      case None => Fault
      case Some(k) =>
        var seg := MemberName(name[i + 1]);
        if i + 2 >= |name| then
          match FirstMember(schema[k].members, seg)
          case Some(m) => Hit(m)
          case None => Miss
        else Resolve(schema, name, i + 1, TypeAfter(schema[k].members, seg, typeName))
  }

  /** A member the walk finds is a member of some struct of the schema whose ID
      is the final segment of the path with its subscript stripped. */
  lemma {:induction false} ResolveFindsFinalSegment(schema: Schema, name: seq<string>, i: nat, typeName: string)
    requires Resolve(schema, name, i, typeName).Hit?
    ensures |name| >= 2
    ensures Resolve(schema, name, i, typeName).value.id == MemberName(name[|name| - 1])
    ensures exists k :: 0 <= k < |schema| && Resolve(schema, name, i, typeName).value in schema[k].members
    decreases |name| - i
  {
    var k := StructIndex(schema, typeName).value;
    var seg := MemberName(name[i + 1]);
    if i + 2 >= |name| {
      assert FirstMember(schema[k].members, seg).Some?;
    } else {
      ResolveFindsFinalSegment(schema, name, i + 1, TypeAfter(schema[k].members, seg, typeName));
    }
  }

  /** `get_member_bit`: the BITS attribute of the member the path names. */
  function MemberBit(schema: Schema, name: seq<string>): (r: Lookup<string>)
    requires |name| >= 1
    ensures StructIndex(schema, name[0]).None? ==> r == Miss
    ensures r.Hit? ==> exists k, m :: 0 <= k < |schema| && m in schema[k].members &&
                                    m.id == MemberName(name[|name| - 1]) && r.value == m.bits
  {
    if StructIndex(schema, name[0]).None? then Miss
    else match Resolve(schema, name, 0, name[0])
      case Hit(m) =>
        ResolveFindsFinalSegment(schema, name, 0, name[0]);
        Hit(m.bits)
      case Miss => Miss
      case Fault => Fault
  }

  /** The `(row, col)` shape of a member's TITLE, e.g. "4(rows);8(cols)". */
  function ParseTitle(title: string): (shape: Shape)
    ensures var parts := Split(title, ';');
            var wellFormed := |parts| > 1 && IsDigits(TitleCount(parts[0])) && IsDigits(TitleCount(parts[1]));
            (wellFormed ==> shape == Shape(DigitsValue(TitleCount(parts[0])), DigitsValue(TitleCount(parts[1]))))
            && (!wellFormed ==> shape == Shape(1, -1))
    ensures shape == Shape(1, -1) || (shape.row >= 0 && shape.col >= 0)
  {
    var parts := Split(title, ';');
    if |parts| > 1 then
      var row := TitleCount(parts[0]);
      var col := TitleCount(parts[1]);
      if IsDigits(row) && IsDigits(col) then Shape(DigitsValue(row), DigitsValue(col)) else Shape(1, -1)
    else Shape(1, -1)
  }

  /** The count in one TITLE component: `part.split('(')[0]`. */
  function TitleCount(part: string): string
  {
    Split(part, '(')[0]
  }

  /** A two-component TITLE `a(x);b(y)`: the counts `a` and `b` before the
      parentheses give `(a, b)` when both are digit strings, and `(1, -1)`
      otherwise. */
  lemma ParseTitleMatrix(a: string, x: string, b: string, y: string)
    requires '(' !in a && ';' !in a && ';' !in x
    requires '(' !in b && ';' !in b && ';' !in y
    ensures ParseTitle(a + "(" + x + ";" + b + "(" + y)
            == if IsDigits(a) && IsDigits(b) then Shape(DigitsValue(a), DigitsValue(b)) else Shape(1, -1)
  {
    var first := a + "(" + x;
    var second := b + "(" + y;
    assert a + "(" + x + ";" + b + "(" + y == first + [';'] + second;
    SplitAtFirst(first, second, ';');
    SplitWithoutSeparator(second, ';');
    CountBeforeParen(a, x);
    CountBeforeParen(b, y);
  }

  /** The matrix TITLE format of the export. */
  lemma ParseTitleExample()
    ensures ParseTitle("4(rows);8(cols)") == Shape(4, 8)
  {
    assert "4(rows);8(cols)" == "4" + "(" + "rows)" + ";" + "8" + "(" + "cols)";
    ParseTitleMatrix("4", "rows)", "8", "cols)");
    assert IsDigits("4") && IsDigits("8");
    assert DigitsValue("4") == 4 && DigitsValue("8") == 8;
  }

  lemma CountBeforeParen(digits: string, rest: string)
    requires '(' !in digits
    ensures TitleCount(digits + "(" + rest) == digits
  {
    assert digits + "(" + rest == digits + ['('] + rest;
    SplitAtFirst(digits, rest, '(');
  }

  /** A TITLE without `;`, the empty one included, is a single dimension. */
  lemma ParseTitleSingle(title: string)
    requires ';' !in title
    ensures ParseTitle(title) == Shape(1, -1)
  {
    SplitWithoutSeparator(title, ';');
  }

  /** `get_member_count`: the shape of the member the path names. */
  function MemberCount(schema: Schema, name: seq<string>): (r: Lookup<Shape>)
    requires |name| >= 1
    ensures StructIndex(schema, name[0]).None? ==> r == Miss
    ensures r.Hit? ==> exists k, m :: 0 <= k < |schema| && m in schema[k].members &&
                                    m.id == MemberName(name[|name| - 1]) && r.value == ParseTitle(m.title)
    ensures r.Hit? ==> r.value == Shape(1, -1) || (r.value.row >= 0 && r.value.col >= 0)
  {
    if StructIndex(schema, name[0]).None? then Miss
    else match Resolve(schema, name, 0, name[0])
      case Hit(m) =>
        ResolveFindsFinalSegment(schema, name, 0, name[0]);
        Hit(ParseTitle(m.title))
      case Miss => Miss
      case Fault => Fault
  }

  /** The walk of get_member_len: every segment, the final one included,
      sets the type from the last matching member; None is the KeyError. */
  function WalkType(schema: Schema, name: seq<string>, i: nat, typeName: string): Option<string>
    decreases |name| - i
  {
    if i + 1 >= |name| then Some(typeName)
    else
      match StructIndex(schema, typeName)
      case None => None
      case Some(k) => WalkType(schema, name, i + 1, TypeAfter(schema[k].members, MemberName(name[i + 1]), typeName))
  }

  /** The bit width of a primitive type name; 0 for anything else. */
  function TypeWidth(typeName: string): nat
  {
    if typeName == "HI_U16" then 16
    else if typeName == "HI_U8" then 8
    else if typeName == "HI_U32" then 32
    else if typeName == "HI_U64" then 64
    else 0
  }

  /** `get_member_len`: the bit width of the type the path ends at. */
  function MemberLen(schema: Schema, name: seq<string>): (r: Lookup<nat>)
    requires |name| >= 1
    ensures r.Hit? ==> r.value in {0, 8, 16, 32, 64}
    ensures !r.Miss?
    ensures StructIndex(schema, name[0]).None? ==> r == Hit(TypeWidth(name[0]))
  {
    if StructIndex(schema, name[0]).None? then Hit(TypeWidth(name[0]))
    else match WalkType(schema, name, 0, name[0])
      case Some(t) => Hit(TypeWidth(t))
      case None => Fault
  }

  // ---------------------------------------------------------------------------
  // A reference walk: first the type, then the member
  // ---------------------------------------------------------------------------

  /** The type the walk has reached when it comes to the final segment: from
      the root, every intermediate segment moves to the type of the last
      member it names; None where a type reached on the way is not a struct. */
  function ReachedType(schema: Schema, name: seq<string>): Option<string>
    requires |name| >= 1
  {
    WalkType(schema, name[..|name| - 1], 0, name[0])
  }

  /** The final segment looked up in the struct of type `t`: the first member
      with that ID, Miss when there is none, Fault when `t` is not a struct. */
  function FinalLookup(schema: Schema, t: string, segment: string): Lookup<Member>
  {
    match StructIndex(schema, t)
    case None => Fault
    case Some(k) =>
      match FirstMember(schema[k].members, MemberName(segment))
      case Some(m) => Hit(m)
      case None => Miss
  }

  /** The member a path names, found in two separate steps. */
  function ReferenceMember(schema: Schema, name: seq<string>): Lookup<Member>
    requires |name| >= 1
  {
    if |name| == 1 then Miss
    else
      match ReachedType(schema, name)
      case None => Fault
      case Some(t) => FinalLookup(schema, t, name[|name| - 1])
  }

  /** The interleaved walk of get_member_bit and get_member_count, from
      iteration `i` on, is the type walk over the segments before the last
      followed by the lookup of the last one. */
  lemma {:induction false} ResolveIsWalk(schema: Schema, name: seq<string>, i: nat, typeName: string)
    requires i + 1 < |name|
    ensures Resolve(schema, name, i, typeName)
            == match WalkType(schema, name[..|name| - 1], i, typeName)
               case None => Fault
               case Some(t) => FinalLookup(schema, t, name[|name| - 1])
    decreases |name| - i
  {
    var prefix := name[..|name| - 1];
    if i + 2 < |name| {
      match StructIndex(schema, typeName)
      case None =>
      case Some(k) =>
        assert prefix[i + 1] == name[i + 1];
        ResolveIsWalk(schema, name, i + 1, TypeAfter(schema[k].members, MemberName(name[i + 1]), typeName));
    }
  }

  /** The whole walk of get_member_len is the type walk over the segments
      before the last, then one more step for the last segment. */
  lemma {:induction false} WalkTypeLast(schema: Schema, name: seq<string>, i: nat, typeName: string)
    requires i + 1 < |name|
    ensures WalkType(schema, name, i, typeName)
            == match WalkType(schema, name[..|name| - 1], i, typeName)
               case None => None
               case Some(t) =>
                 match StructIndex(schema, t)
                 case None => None
                 case Some(k) => Some(TypeAfter(schema[k].members, MemberName(name[|name| - 1]), t))
    decreases |name| - i
  {
    var prefix := name[..|name| - 1];
    match StructIndex(schema, typeName)
    case None =>
    case Some(k) =>
      if i + 2 < |name| {
        assert prefix[i + 1] == name[i + 1];
        WalkTypeLast(schema, name, i + 1, TypeAfter(schema[k].members, MemberName(name[i + 1]), typeName));
      }
  }

  /** `get_member_bit` for a known root: the BITS of the member the reference
      walk finds, Miss exactly when it finds none, Fault exactly when a type
      reached on the way is not a struct. */
  lemma MemberBitIsReference(schema: Schema, name: seq<string>)
    requires |name| >= 1 && StructIndex(schema, name[0]).Some?
    ensures MemberBit(schema, name) == match ReferenceMember(schema, name)
                                      case Hit(m) => Hit(m.bits)
                                      case Miss => Miss
                                      case Fault => Fault
  {
    if |name| >= 2 {
      ResolveIsWalk(schema, name, 0, name[0]);
    }
  }

  /** `get_member_count` for a known root: the parsed TITLE of the member the
      reference walk finds, with the same Miss and Fault cases. */
  lemma MemberCountIsReference(schema: Schema, name: seq<string>)
    requires |name| >= 1 && StructIndex(schema, name[0]).Some?
    ensures MemberCount(schema, name) == match ReferenceMember(schema, name)
                                        case Hit(m) => Hit(ParseTitle(m.title))
                                        case Miss => Miss
                                        case Fault => Fault
  {
    if |name| >= 2 {
      ResolveIsWalk(schema, name, 0, name[0]);
    }
  }

  /** `get_member_len` for a known root measures the type of the last member
      with the final segment's ID in the struct the walk reaches, or that
      struct's own type name when no member has the ID; a one-segment path
      measures the root. */
  lemma MemberLenIsReference(schema: Schema, name: seq<string>)
    requires |name| >= 1 && StructIndex(schema, name[0]).Some?
    ensures |name| == 1 ==> MemberLen(schema, name) == Hit(TypeWidth(name[0]))
    ensures |name| >= 2 ==>
              MemberLen(schema, name) == match ReachedType(schema, name)
                                         case None => Fault
                                         case Some(t) =>
                                           match StructIndex(schema, t)
                                           case None => Fault
                                           case Some(k) => Hit(TypeWidth(TypeAfter(schema[k].members, MemberName(name[|name| - 1]), t)))
  {
    if |name| >= 2 {
      WalkTypeLast(schema, name, 0, name[0]);
    }
  }
}
