/**
 The load-time scan of a JSON Schema: a depth-limited search through schema
 positions and local references, whose visited set is keyed by pointer text.
 */
module SchemaScan {
  import opened Options
  import opened Numerals
  import opened Percent
  import opened JsonPointer

  const MAX_SCHEMA_DEPTH: nat := 64
  const MAX_FINDINGS: nat := 16
  const MAX_I64: int := 0x7FFF_FFFF_FFFF_FFFF

  const VALID_TYPES: seq<string> := ["string", "number", "integer", "boolean", "array", "object", "null"]

  /** The document under scan, which patterns compile, and the table of keywords. */
  datatype Context = Context(root: Json, regexOk: string -> bool, classOf: string -> Class)

  datatype Reason =
    TooDeep | NotASchema | Unsupported(key: string) | Malformed(key: string) | EmptyType | NonStringType
    | UnknownType(name: string)

  datatype Finding = Finding(ptr: string, reason: Reason)

  /** A node and the pointer it is scanned under. */
  datatype Kid = Kid(ptr: string, node: Json)

  datatype State = State(findings: seq<Finding>, visited: set<string>)

  // ---- What a well-formed schema node is ---------------------------------------------

  datatype Class =
    TypeNames | List | Strings | Number | Positive | Count | Flag | Pattern | Words | Table | FlagOrTable | Branches
    | Ref | Data | Unknown

  /** The supported keywords, and what each may hold. */
  function ClassOf(key: string): Class {
    if key == "type" then TypeNames
    else if key == "enum" || key == "examples" then List
    else if key == "required" then Strings
    else if key == "minimum" || key == "maximum" || key == "exclusiveMinimum" || key == "exclusiveMaximum" then Number
    else if key == "multipleOf" then Positive
    else if key == "minLength" || key == "maxLength" || key == "minItems" || key == "maxItems" then Count
    else if key == "uniqueItems" then Flag
    else if key == "pattern" then Pattern
    else if key == "format" || key == "title" || key == "description" || key == "$comment" || key == "$schema"
            || key == "$id"
    then Words
    else if key == "properties" || key == "$defs" || key == "definitions" then Table
    else if key == "additionalProperties" || key == "items" then FlagOrTable
    else if key == "anyOf" || key == "oneOf" || key == "allOf" then Branches
    else if key == "$ref" then Ref
    else if key == "const" || key == "default" then Data
    else Unknown
  }

  predicate IsTypeName(v: Json) { v.Str? && v.s in VALID_TYPES }

  predicate TypeOk(v: Json) {
    IsTypeName(v) || (v.Arr? && v.elems != [] && forall i :: 0 <= i < |v.elems| ==> IsTypeName(v.elems[i]))
  }

  predicate RefOk(c: Context, v: Json) { v.Str? && Resolve(c.root, v.s).Some? }

  /** The value a keyword of this class may hold. */
  predicate ShapeOk(c: Context, class_: Class, v: Json) {
    match class_
    case TypeNames => TypeOk(v)
    case List => v.Arr?
    case Strings => v.Arr? && forall i :: 0 <= i < |v.elems| ==> v.elems[i].Str?
    case Number => v.Int? || v.Float?
    case Positive => (v.Int? && v.v > 0) || (v.Float? && v.positive)
    case Count => v.Int? && 0 <= v.v <= MAX_I64
    case Flag => v.Bool?
    case Pattern => v.Str? && c.regexOk(v.s)
    case Words => v.Str?
    case Table => v.Obj?
    case FlagOrTable => v.Bool? || v.Obj?
    case Branches => v.Arr? && v.elems != []
    case Ref => RefOk(c, v)
    case Data => true
    case Unknown => false
  }

  // ---- The keyword table, read a second time -------------------------------------------------

  const SUPPORTED_KEYWORDS: seq<string> := [
    "type", "properties", "required", "additionalProperties", "items", "enum", "const", "minimum", "maximum",
    "exclusiveMinimum", "exclusiveMaximum", "multipleOf", "minLength", "maxLength", "pattern", "minItems", "maxItems",
    "uniqueItems", "anyOf", "oneOf", "allOf", "$ref", "format", "description", "title", "default", "examples",
    "$schema", "$id", "$comment", "definitions", "$defs"]

  /** A keyword has a class exactly when it is in the list of supported keywords. */
  lemma KeywordsExact(key: string)
    ensures key in SUPPORTED_KEYWORDS <==> ClassOf(key) != Unknown
  {
    if key in SUPPORTED_KEYWORDS {
      var i :| 0 <= i < |SUPPORTED_KEYWORDS| && SUPPORTED_KEYWORDS[i] == key;
      KeywordKnown(i);
    } else {
      UnlistedUnknown(key);
    }
  }

  lemma KeywordKnown(i: nat)
    requires i < |SUPPORTED_KEYWORDS|
    ensures ClassOf(SUPPORTED_KEYWORDS[i]) != Unknown
  {
  }

  lemma UnlistedUnknown(key: string)
    requires key !in SUPPORTED_KEYWORDS
    ensures ClassOf(key) == Unknown
  {
    forall i | 0 <= i < |SUPPORTED_KEYWORDS| ensures key != SUPPORTED_KEYWORDS[i] { }
    assert key != SUPPORTED_KEYWORDS[0] && key != SUPPORTED_KEYWORDS[1] && key != SUPPORTED_KEYWORDS[2];
  }

  predicate WordsKey(key: string) { key in ["format", "title", "description", "$comment", "$schema", "$id"] }

  predicate StringKey(key: string) { key == "pattern" || key == "$ref" || WordsKey(key) }

  predicate ArrayKey(key: string) { key in ["enum", "examples", "required"] || BranchKey(key) }

  predicate NumberKey(key: string) {
    key in ["minimum", "maximum", "exclusiveMinimum", "exclusiveMaximum", "multipleOf"]
  }

  predicate CountKey(key: string) { key in ["minLength", "maxLength", "minItems", "maxItems"] }

  predicate SchemaKey(key: string) { key in ["additionalProperties", "items"] }

  /** What a keyword asks of its value: a JSON kind, and for some kinds more. */
  datatype Demand = Demand(text: bool, list: bool, number: bool, count: bool, table: bool, schema: bool, flag: bool,
                           types: bool, strings: bool, branches: bool, positive: bool, pattern: bool, ref: bool)

  function DemandOf(key: string): Demand {
    Demand(StringKey(key), ArrayKey(key), NumberKey(key), CountKey(key), TableKey(key), SchemaKey(key),
           key == "uniqueItems", key == "type", key == "required", BranchKey(key), key == "multipleOf",
           key == "pattern", key == "$ref")
  }

  /** The JSON kind a keyword's value must have. */
  ghost predicate KindFits(d: Demand, v: Json) {
    && (d.text ==> v.Str?)
    && (d.list ==> v.Arr?)
    && (d.number ==> v.Int? || v.Float?)
    && (d.count ==> v.Int?)
    && (d.table ==> v.Obj?)
    && (d.schema ==> v.Obj? || v.Bool?)
    && (d.flag ==> v.Bool?)
    && (d.types ==> v.Str? || v.Arr?)
  }

  predicate TypeNamed(v: Json) { v.Str? && v.s in VALID_TYPES }

  /** What a value of the right kind must still be. */
  ghost predicate ContentFits(c: Context, d: Demand, v: Json) {
    && (d.strings ==> v.Arr? && forall i :: 0 <= i < |v.elems| ==> v.elems[i].Str?)
    && (d.branches ==> v.Arr? && |v.elems| > 0)
    && (d.positive ==> (v.Int? && v.v > 0) || (v.Float? && v.positive))
    && (d.count ==> v.Int? && 0 <= v.v < 0x8000_0000_0000_0000)
    && (d.pattern ==> v.Str? && c.regexOk(v.s))
    && (d.ref ==> v.Str? && Resolve(c.root, v.s).Some?)
    && (d.types && v.Str? ==> TypeNamed(v))
    && (d.types && v.Arr? ==> |v.elems| > 0 && forall i :: 0 <= i < |v.elems| ==> TypeNamed(v.elems[i]))
  }

  lemma WordsClass(key: string)
    ensures WordsKey(key) <==> ClassOf(key) == Words
  {
  }

  lemma PatternClass(key: string)
    ensures (key == "pattern" <==> ClassOf(key) == Pattern) && (key == "$ref" <==> ClassOf(key) == Ref)
  {
  }

  lemma StringClasses(key: string)
    ensures StringKey(key) <==> ClassOf(key) == Pattern || ClassOf(key) == Words || ClassOf(key) == Ref
    ensures (key == "pattern" <==> ClassOf(key) == Pattern) && (key == "$ref" <==> ClassOf(key) == Ref)
  {
    WordsClass(key);
    PatternClass(key);
  }

  lemma ArrayClasses(key: string)
    ensures ArrayKey(key) <==> ClassOf(key) == List || ClassOf(key) == Strings || ClassOf(key) == Branches
    ensures (key == "required" <==> ClassOf(key) == Strings) && (BranchKey(key) <==> ClassOf(key) == Branches)
  {
  }

  lemma NumberClasses(key: string)
    ensures NumberKey(key) <==> ClassOf(key) == Number || ClassOf(key) == Positive
    ensures key == "multipleOf" <==> ClassOf(key) == Positive
    ensures CountKey(key) <==> ClassOf(key) == Count
  {
  }

  lemma OtherClasses(key: string)
    ensures (TableKey(key) <==> ClassOf(key) == Table) && (SchemaKey(key) <==> ClassOf(key) == FlagOrTable)
    ensures (key == "uniqueItems" <==> ClassOf(key) == Flag) && (key == "type" <==> ClassOf(key) == TypeNames)
  {
    FlagClass(key);
  }

  lemma FlagClass(key: string)
    ensures (key == "uniqueItems" <==> ClassOf(key) == Flag) && (key == "type" <==> ClassOf(key) == TypeNames)
  {
  }

  /** A class makes the demands its keywords make. */
  ghost predicate Demands(d: Demand, k: Class) {
    && (d.text <==> k == Pattern || k == Words || k == Ref) && (d.pattern <==> k == Pattern) && (d.ref <==> k == Ref)
    && (d.list <==> k == List || k == Strings || k == Branches) && (d.strings <==> k == Strings)
    && (d.branches <==> k == Branches) && (d.number <==> k == Number || k == Positive)
    && (d.positive <==> k == Positive) && (d.count <==> k == Count) && (d.table <==> k == Table)
    && (d.schema <==> k == FlagOrTable) && (d.flag <==> k == Flag) && (d.types <==> k == TypeNames)
  }

  lemma ClassDemands(key: string)
    ensures Demands(DemandOf(key), ClassOf(key))
  {
    StringClasses(key);
    ArrayClasses(key);
    NumberClasses(key);
    OtherClasses(key);
  }

  lemma ShapeOfDemand(c: Context, d: Demand, k: Class, v: Json)
    requires Demands(d, k)
    ensures ShapeOk(c, k, v) <==> k != Unknown && KindFits(d, v) && ContentFits(c, d, v)
  {
    if v.Arr? { assert forall i :: 0 <= i < |v.elems| ==> IsTypeName(v.elems[i]) == TypeNamed(v.elems[i]); }
  }

  /** A value is accepted exactly when its keyword is supported and its kind and content fit. */
  lemma ShapesExact(c: Context, key: string, v: Json)
    ensures ShapeOk(c, ClassOf(key), v)
       <==> key in SUPPORTED_KEYWORDS && KindFits(DemandOf(key), v) && ContentFits(c, DemandOf(key), v)
  {
    KeywordsExact(key);
    ClassDemands(key);
    ShapeOfDemand(c, DemandOf(key), ClassOf(key), v);
  }

  predicate FieldOk(c: Context, f: Field) { ShapeOk(c, c.classOf(f.name), f.value) }

  /** This node alone has only supported keywords with well-shaped values. */
  predicate LocalOk(c: Context, node: Json) {
    match node
    case Bool(_) => true
    case Obj(members) => forall i :: 0 <= i < |members| ==> FieldOk(c, members[i])
    case _ => false
  }

  // ---- Schema positions ------------------------------------------------------------------

  const POSITIONS: seq<string> :=
    ["properties", "items", "additionalProperties", "anyOf", "oneOf", "allOf", "$defs", "definitions"]

  function Values(members: seq<Field>): (r: seq<Json>)
    ensures |r| == |members| && forall i :: 0 <= i < |r| ==> r[i] == members[i].value
  {
    seq(|members|, i requires 0 <= i < |members| => members[i].value)
  }

  /** The subschemas a position's value holds. */
  function Subschemas(k: nat, v: Json): seq<Json> {
    if k == 1 then if v.Obj? || v.Bool? then [v] else []
    else if k == 2 then if v.Obj? then [v] else []
    else if 3 <= k <= 5 then if v.Arr? then v.elems else []
    else if v.Obj? then Values(v.members) else []
  }

  function SubschemasAt(members: seq<Field>, k: nat): seq<Json>
    requires k < |POSITIONS|
  {
    match Member(members, POSITIONS[k])
    case None => []
    case Some(v) => Subschemas(k, v)
  }

  /** The pointer of subschema `i` of the position. */
  function SubPointer(ptr: string, k: nat, v: Json, i: nat): string
    requires k < |POSITIONS| && i < |Subschemas(k, v)|
  {
    var base := ptr + "/" + POSITIONS[k];
    if 1 <= k <= 2 then base
    else if 3 <= k <= 5 then base + "/" + Decimal(i)
    else base + "/" + PtrEscape(v.members[i].name)
  }

  function Kids(ptr: string, members: seq<Field>, k: nat): (r: seq<Kid>)
    requires k < |POSITIONS|
    ensures |r| == |SubschemasAt(members, k)| && forall i :: 0 <= i < |r| ==> r[i].node == SubschemasAt(members, k)[i]
  {
    match Member(members, POSITIONS[k])
    case None => []
    case Some(v) =>
      seq(|Subschemas(k, v)|, i requires 0 <= i < |Subschemas(k, v)| =>
          Kid(SubPointer(ptr, k, v, i), Subschemas(k, v)[i]))
  }

  function RefKid(c: Context, v: Json): Kid
    requires RefOk(c, v)
  {
    Kid(v.s, Resolve(c.root, v.s).value)
  }

  predicate IsRef(c: Context, f: Field, target: string, node: Json) {
    c.classOf(f.name) == Ref && f.value == Str(target) && Resolve(c.root, target) == Some(node)
  }

  // ---- Schema steps, read off the document ------------------------------------------------

  /** Member `i` is the one its name looks up. */
  ghost predicate FirstNamed(members: seq<Field>, i: nat) {
    i < |members| && forall j :: 0 <= j < i ==> members[j].name != members[i].name
  }

  predicate BranchKey(key: string) { key == "anyOf" || key == "oneOf" || key == "allOf" }

  predicate TableKey(key: string) { key == "properties" || key == "$defs" || key == "definitions" }

  /** `next` is a subschema that keyword `key` with value `v` holds. */
  ghost predicate Nested(key: string, v: Json, next: Json) {
    || (BranchKey(key) && v.Arr? && next in v.elems)
    || (TableKey(key) && v.Obj? && exists m :: 0 <= m < |v.members| && v.members[m].value == next)
    || (key == "items" && (v.Obj? || v.Bool?) && next == v)
    || (key == "additionalProperties" && v.Obj? && next == v)
  }

  ghost predicate NestedAt(members: seq<Field>, i: nat, next: Json) {
    FirstNamed(members, i) && Nested(members[i].name, members[i].value, next)
  }

  ghost predicate Nests(members: seq<Field>, next: Json) { exists i: nat :: NestedAt(members, i, next) }

  /** One schema step: to a subschema the node holds, or along a local reference. */
  ghost predicate StepsTo(c: Context, node: Json, next: Json) {
    node.Obj?
    && (|| (exists i, target :: 0 <= i < |node.members| && IsRef(c, node.members[i], target, next))
        || Nests(node.members, next))
  }

  lemma {:induction false} MemberOfFirst(members: seq<Field>, i: nat)
    requires FirstNamed(members, i)
    ensures Member(members, members[i].name) == Some(members[i].value)
  {
    if i > 0 {
      assert members[0].name != members[i].name;
      forall j | 0 <= j < i - 1 ensures members[1..][j].name != members[1..][i - 1].name {
        assert members[j + 1].name != members[i].name;
      }
      MemberOfFirst(members[1..], i - 1);
    }
  }

  lemma {:induction false} FirstOfMember(members: seq<Field>, name: string) returns (i: nat)
    requires Member(members, name).Some?
    ensures FirstNamed(members, i) && members[i].name == name && Member(members, name) == Some(members[i].value)
  {
    if members[0].name == name {
      i := 0;
    } else {
      var k := FirstOfMember(members[1..], name);
      i := k + 1;
      forall j | 0 <= j < i ensures members[j].name != members[i].name {
        if j > 0 { assert members[1..][j - 1].name != members[1..][k].name; }
      }
    }
  }

  /** The position a keyword's subschemas are scanned in. */
  function PositionOf(key: string): (k: nat)
    ensures k < |POSITIONS| <==> BranchKey(key) || TableKey(key) || key == "items" || key == "additionalProperties"
    ensures k < |POSITIONS| ==> POSITIONS[k] == key
  {
    if key == "properties" then 0 else if key == "items" then 1 else if key == "additionalProperties" then 2
    else if key == "anyOf" then 3 else if key == "oneOf" then 4 else if key == "allOf" then 5
    else if key == "$defs" then 6 else if key == "definitions" then 7 else 8
  }

  lemma PositionIs(k: nat)
    requires k < |POSITIONS|
    ensures PositionOf(POSITIONS[k]) == k
    ensures (BranchKey(POSITIONS[k]) <==> 3 <= k <= 5) && (TableKey(POSITIONS[k]) <==> k == 0 || k > 5)
    ensures (POSITIONS[k] == "items" <==> k == 1) && (POSITIONS[k] == "additionalProperties" <==> k == 2)
  {
  }

  lemma NestedIsSubschema(k: nat, v: Json, next: Json)
    requires k < |POSITIONS|
    ensures Nested(POSITIONS[k], v, next) <==> next in Subschemas(k, v)
  {
    PositionIs(k);
    if (k == 0 || k > 5) && v.Obj? {
      if next in Values(v.members) {
        var m :| 0 <= m < |v.members| && Values(v.members)[m] == next;
        assert v.members[m].value == next;
      }
      if m :| 0 <= m < |v.members| && v.members[m].value == next { assert Values(v.members)[m] == next; }
    }
  }

  /** The scan recurses into exactly the subschemas the document holds. */
  lemma NestsAtPosition(members: seq<Field>, next: Json)
    ensures Nests(members, next) <==> exists k :: 0 <= k < |POSITIONS| && next in SubschemasAt(members, k)
  {
    if Nests(members, next) {
      var i: nat :| NestedAt(members, i, next);
      var k := PositionOf(members[i].name);
      MemberOfFirst(members, i);
      NestedIsSubschema(k, members[i].value, next);
      assert next in SubschemasAt(members, k);
    }
    if k :| 0 <= k < |POSITIONS| && next in SubschemasAt(members, k) {
      var i := FirstOfMember(members, POSITIONS[k]);
      NestedIsSubschema(k, members[i].value, next);
      assert NestedAt(members, i, next);
    }
  }

  /** The same step with pointers. */
  ghost predicate IsKid(c: Context, from: Kid, to: Kid) {
    from.node.Obj?
    && (|| (exists i :: 0 <= i < |from.node.members| && IsRef(c, from.node.members[i], to.ptr, to.node))
        || (exists k :: 0 <= k < |POSITIONS| && to in Kids(from.ptr, from.node.members, k)))
  }

  // ---- The scan as a function on findings and visited pointers ---------------------------------

  function Push(st: State, f: Finding): (r: State)
    ensures r.visited == st.visited && st.findings <= r.findings
    ensures |st.findings| <= MAX_FINDINGS ==> r.findings != [] && |r.findings| <= MAX_FINDINGS
  {
    if |st.findings| < MAX_FINDINGS then st.(findings := st.findings + [f]) else st
  }

  function PushAll(st: State, fs: seq<Finding>): (r: State)
    ensures r.visited == st.visited && st.findings <= r.findings
    ensures |st.findings| <= MAX_FINDINGS ==> |r.findings| <= MAX_FINDINGS && (r.findings == [] ==> fs == [])
    ensures fs == [] ==> r == st
    decreases |fs|
  {
    if fs == [] then st else PushAll(Push(st, fs[0]), fs[1..])
  }

  function NonStrings(ptr: string, elems: seq<Json>): seq<Finding> {
    if elems == [] then []
    else (if elems[0].Str? then [] else [Finding(ptr, NonStringType)]) + NonStrings(ptr, elems[1..])
  }

  function Unknowns(ptr: string, elems: seq<Json>): seq<Finding> {
    if elems == [] then []
    else (if elems[0].Str? && elems[0].s !in VALID_TYPES then [Finding(ptr, UnknownType(elems[0].s))] else [])
         + Unknowns(ptr, elems[1..])
  }

  /** Everything the shape check of one keyword reports, references apart. */
  function Faults(c: Context, ptr: string, f: Field): seq<Finding> {
    var class_ := c.classOf(f.name);
    if class_ == TypeNames then
      match f.value
      case Str(_) => Unknowns(ptr, [f.value])
      case Arr(elems) => (if elems == [] then [Finding(ptr, EmptyType)] else []) + NonStrings(ptr, elems)
             + Unknowns(ptr, elems)
      case _ => [Finding(ptr, Malformed(f.name))]
    else if ShapeOk(c, class_, f.value) then [] else [Finding(ptr, Malformed(f.name))]
  }

  ghost predicate Grows(st: State, r: State) {
    |st.findings| <= MAX_FINDINGS ==>
      st.findings <= r.findings && |r.findings| <= MAX_FINDINGS && st.visited <= r.visited
  }

  function Scan(c: Context, st: State, kid: Kid, depth: nat): (r: State)
    requires depth <= MAX_SCHEMA_DEPTH + 1
    ensures Grows(st, r)
    ensures |st.findings| <= MAX_FINDINGS && r.findings == [] ==> kid.ptr in r.visited
    decreases MAX_SCHEMA_DEPTH + 1 - depth, 3
  {
    if |st.findings| >= MAX_FINDINGS || kid.ptr in st.visited then st
    else
      var st := st.(visited := st.visited + {kid.ptr});
      if depth > MAX_SCHEMA_DEPTH then Push(st, Finding(kid.ptr, TooDeep))
      else
        match kid.node
        case Bool(_) => st
        case Obj(members) => ScanPositions(c, ScanMembers(c, st, kid.ptr, members, depth), kid.ptr, members, 0, depth)
        case _ => Push(st, Finding(kid.ptr, NotASchema))
  }

  function ScanMembers(c: Context, st: State, ptr: string, members: seq<Field>, depth: nat): (r: State)
    requires depth <= MAX_SCHEMA_DEPTH
    ensures Grows(st, r)
    decreases MAX_SCHEMA_DEPTH + 1 - depth, 1, |members|
  {
    if members == [] then st
    else ScanMembers(c, CheckMember(c, st, ptr, members[0], depth), ptr, members[1..], depth)
  }

  function CheckMember(c: Context, st: State, ptr: string, f: Field, depth: nat): (r: State)
    requires depth <= MAX_SCHEMA_DEPTH
    ensures Grows(st, r)
    decreases MAX_SCHEMA_DEPTH + 1 - depth, 0
  {
    if c.classOf(f.name) == Unknown then Push(st, Finding(ptr, Unsupported(f.name)))
    else if c.classOf(f.name) == Ref && RefOk(c, f.value)
    then Scan(c, st, RefKid(c, f.value), depth + 1)
    else PushAll(st, Faults(c, ptr, f))
  }

  function ScanPositions(c: Context, st: State, ptr: string, members: seq<Field>, k: nat, depth: nat): (r: State)
    requires depth <= MAX_SCHEMA_DEPTH && k <= |POSITIONS|
    ensures Grows(st, r)
    decreases MAX_SCHEMA_DEPTH + 1 - depth, 2, |POSITIONS| - k
  {
    if k == |POSITIONS| then st
    else ScanPositions(c, ScanKids(c, st, Kids(ptr, members, k), depth), ptr, members, k + 1, depth)
  }

  function ScanKids(c: Context, st: State, kids: seq<Kid>, depth: nat): (r: State)
    requires depth <= MAX_SCHEMA_DEPTH
    ensures Grows(st, r)
    decreases MAX_SCHEMA_DEPTH + 1 - depth, 1, |kids|
  {
    if kids == [] then st else ScanKids(c, Scan(c, st, kids[0], depth + 1), kids[1..], depth)
  }

  function Start(): State { State([], {}) }

  function Findings(c: Context): seq<Finding> { Scan(c, Start(), Kid("#", c.root), 0).findings }

  // ---- Documents whose pointers name what they spell ----------------------------------------

  /** A run of schema steps from the root. */
  ghost predicate IsPath(c: Context, path: seq<Json>) {
    path != [] && path[0] == c.root && forall i :: 0 <= i < |path| - 1 ==> StepAt(c, path, i)
  }

  ghost predicate StepAt(c: Context, path: seq<Json>, i: nat) { i + 1 < |path| && StepsTo(c, path[i], path[i + 1]) }

  /** A member name with nothing in it to percent-decode. */
  predicate NoPercent(name: string) { forall i :: 0 <= i < |name| ==> !EscapeAt(name, i) }

  predicate PlainNames(members: seq<Field>) {
    && (forall i, k :: 0 <= i < k < |members| ==> members[i].name != members[k].name)
    && (forall i :: 0 <= i < |members| ==> NoPercent(members[i].name))
  }

  /** The names (or the length) through which pointers enter position `k`. */
  predicate PlainTable(k: nat, v: Json) {
    if 3 <= k <= 5 then v.Arr? ==> |v.elems| <= U64
    else !(1 <= k <= 2) && v.Obj? ==> PlainNames(v.members)
  }

  predicate TablesPlain(node: Json) {
    node.Obj? ==> forall k :: 0 <= k < |POSITIONS| && Member(node.members, POSITIONS[k]).Some? ==>
                                PlainTable(k, Member(node.members, POSITIONS[k]).value)
  }

  /** Every schema node that can be reached holds its subschemas under plain names. */
  ghost predicate Fair(c: Context) { forall path :: IsPath(c, path) ==> TablesPlain(path[|path| - 1]) }

  ghost predicate PathTo(c: Context, path: seq<Json>, node: Json) { IsPath(c, path) && path[|path| - 1] == node }

  ghost predicate Reachable(c: Context, node: Json) { exists path :: PathTo(c, path, node) }

  lemma ReachRoot(c: Context)
    ensures Reachable(c, c.root)
  {
    assert PathTo(c, [c.root], c.root);
  }

  lemma ReachStep(c: Context, node: Json, next: Json)
    requires Reachable(c, node) && StepsTo(c, node, next)
    ensures Reachable(c, next)
  {
    var path :| PathTo(c, path, node);
    PathOn(c, path, node, next);
  }

  lemma PathOn(c: Context, path: seq<Json>, node: Json, next: Json)
    requires PathTo(c, path, node) && StepsTo(c, node, next)
    ensures PathTo(c, path + [next], next)
  {
    var longer := path + [next];
    forall i | 0 <= i < |longer| - 1 ensures StepAt(c, longer, i) {
      if i < |path| - 1 { assert StepAt(c, path, i); }
    }
  }

  /** A condition on the document alone that makes it fair: plain names everywhere, in data too. */
  predicate Faithful(j: Json) {
    match j
    case Obj(members) => PlainNames(members) && forall i :: 0 <= i < |members| ==> Faithful(members[i].value)
    case Arr(elems) => |elems| <= U64 && forall i :: 0 <= i < |elems| ==> Faithful(elems[i])
    case _ => true
  }

  lemma {:induction false} MemberInside(members: seq<Field>, name: string)
    requires Member(members, name).Some?
    ensures exists i :: 0 <= i < |members| && members[i].name == name && Member(members, name) == Some(members[i].value)
  {
    if members[0].name != name {
      MemberInside(members[1..], name);
      var i :| 0 <= i < |members[1..]| && members[1..][i].name == name
        && Member(members[1..], name) == Some(members[1..][i].value);
      assert members[i + 1] == members[1..][i];
    }
  }

  lemma {:induction false} MemberUnique(members: seq<Field>, i: nat)
    requires i < |members| && forall j, k :: 0 <= j < k < |members| ==> members[j].name != members[k].name
    ensures Member(members, members[i].name) == Some(members[i].value)
  {
    if i > 0 {
      assert members[0].name != members[i].name;
      assert members[1..][i - 1] == members[i];
      MemberUnique(members[1..], i - 1);
    }
  }

  lemma ChildFaithful(node: Json, token: string)
    requires Faithful(node) && Child(node, token).Some?
    ensures Faithful(Child(node, token).value)
  {
    if node.Obj? { MemberInside(node.members, token); }
  }

  lemma {:induction false} WalkFaithful(node: Json, tokens: seq<string>)
    requires Faithful(node) && Walk(node, tokens).Some?
    ensures Faithful(Walk(node, tokens).value)
    decreases |tokens|
  {
    if tokens != [] {
      ChildFaithful(node, tokens[0]);
      WalkFaithful(Child(node, tokens[0]).value, tokens[1..]);
    }
  }

  lemma StepFaithful(c: Context, node: Json, next: Json)
    requires Faithful(c.root) && Faithful(node) && StepsTo(c, node, next)
    ensures Faithful(next)
  {
    if i, target :| 0 <= i < |node.members| && IsRef(c, node.members[i], target, next) {
      WalkFaithful(c.root, Tokens(target).value);
    } else {
      NestsAtPosition(node.members, next);
      var k :| 0 <= k < |POSITIONS| && next in SubschemasAt(node.members, k);
      MemberInside(node.members, POSITIONS[k]);
    }
  }

  lemma {:induction false} PathFaithful(c: Context, path: seq<Json>, n: nat)
    requires Faithful(c.root) && IsPath(c, path) && n < |path|
    ensures Faithful(path[n])
  {
    if n > 0 {
      PathFaithful(c, path, n - 1);
      assert StepAt(c, path, n - 1);
      StepFaithful(c, path[n - 1], path[n]);
    }
  }

  lemma TablesFaithful(node: Json)
    requires Faithful(node)
    ensures TablesPlain(node)
  {
    if node.Obj? {
      forall k | 0 <= k < |POSITIONS| && Member(node.members, POSITIONS[k]).Some?
        ensures PlainTable(k, Member(node.members, POSITIONS[k]).value)
      {
        MemberInside(node.members, POSITIONS[k]);
      }
    }
  }

  lemma FaithfulIsFair(c: Context)
    requires Faithful(c.root)
    ensures Fair(c)
  {
    forall path | IsPath(c, path) ensures TablesPlain(path[|path| - 1]) {
      PathFaithful(c, path, |path| - 1);
      TablesFaithful(path[|path| - 1]);
    }
  }

  lemma PositionPlain(k: nat)
    requires k < |POSITIONS|
    ensures '/' !in POSITIONS[k] && '%' !in POSITIONS[k] && '~' !in POSITIONS[k]
  {
  }

  /** Each subschema's pointer resolves to that subschema. */
  lemma KidResolves(c: Context, ptr: string, members: seq<Field>, k: nat, i: nat)
    requires TablesPlain(Obj(members)) && Resolve(c.root, ptr) == Some(Obj(members))
    requires k < |POSITIONS| && i < |Kids(ptr, members, k)|
    ensures Resolve(c.root, Kids(ptr, members, k)[i].ptr) == Some(Kids(ptr, members, k)[i].node)
  {
    var v := Member(members, POSITIONS[k]).value;
    var base := ptr + "/" + POSITIONS[k];
    PositionPlain(k);
    ResolvePlain(c.root, ptr, POSITIONS[k]);
    assert Resolve(c.root, base) == Some(v) && PlainTable(k, v);
    if 3 <= k <= 5 {
      ResolveIndex(c.root, base, i);
    } else if k == 0 || k > 5 {
      NamedResolves(c, base, v.members, i);
    }
  }

  lemma NamedResolves(c: Context, base: string, members: seq<Field>, i: nat)
    requires Resolve(c.root, base) == Some(Obj(members)) && PlainNames(members) && i < |members|
    ensures Resolve(c.root, base + "/" + PtrEscape(members[i].name)) == Some(members[i].value)
  {
    var name := members[i].name;
    EscapeRoundTrip(name);
    assert !HasEscape(name);
    EscapeAddsNoPercent(name);
    ResolveOn(c.root, base, PtrEscape(name));
    MemberUnique(members, i);
  }

  // ---- No findings means no bad node can be reached --------------------------------------------

  ghost predicate Covered(c: Context, visited: set<string>, node: Json) {
    exists p :: p in visited && Resolve(c.root, p) == Some(node)
  }

  /** A finished pointer: its node is fine and every step from it is covered. */
  ghost predicate Done(c: Context, visited: set<string>, p: string) {
    Resolve(c.root, p).Some?
    && var node := Resolve(c.root, p).value;
    LocalOk(c, node) && forall next :: StepsTo(c, node, next) ==> Covered(c, visited, next)
  }

  /** Every visited pointer is finished, but for those still open. */
  ghost predicate Sound(c: Context, visited: set<string>, open: set<string>) {
    forall p :: p in visited && p !in open ==> Done(c, visited, p)
  }

  lemma SoundGrows(c: Context, visited: set<string>, open: set<string>, ptr: string)
    requires Sound(c, visited, open)
    ensures Sound(c, visited + {ptr}, open + {ptr})
  {
    forall p | p in visited && p !in open ensures Done(c, visited + {ptr}, p) {
      DoneGrows(c, visited, visited + {ptr}, p);
    }
  }

  lemma DoneGrows(c: Context, visited: set<string>, more: set<string>, p: string)
    requires Done(c, visited, p) && visited <= more
    ensures Done(c, more, p)
  {
    forall next | StepsTo(c, Resolve(c.root, p).value, next) ensures Covered(c, more, next) {
      assert Covered(c, visited, next);
    }
  }

  /** Every member is fine and every reference among them has been visited. */
  ghost predicate MembersDone(c: Context, visited: set<string>, members: seq<Field>) {
    forall i :: 0 <= i < |members| ==>
      && FieldOk(c, members[i])
      && (c.classOf(members[i].name) == Ref ==> members[i].value.Str? && members[i].value.s in visited)
  }

  ghost predicate KidsDone(visited: set<string>, kids: seq<Kid>) {
    forall i :: 0 <= i < |kids| ==> kids[i].ptr in visited
  }

  /** The kid's pointer resolves to the kid's node, and schema steps lead there. */
  ghost predicate Named(c: Context, kid: Kid) { Resolve(c.root, kid.ptr) == Some(kid.node) && Reachable(c, kid.node) }

  ghost predicate AllNamed(c: Context, kids: seq<Kid>) { forall i :: 0 <= i < |kids| ==> Named(c, kids[i]) }

  lemma AllNamedCons(c: Context, kids: seq<Kid>)
    requires kids != [] && AllNamed(c, kids)
    ensures Named(c, kids[0]) && AllNamed(c, kids[1..])
  {
  }

  /** Findings never go away, so none at the end means none on the way. */
  lemma NoneBefore(c: Context, st: State, kids: seq<Kid>, depth: nat)
    requires depth <= MAX_SCHEMA_DEPTH && |st.findings| <= MAX_FINDINGS && kids != []
    requires ScanKids(c, st, kids, depth).findings == []
    ensures var next := Scan(c, st, kids[0], depth + 1);
            && next.findings == [] && kids[0].ptr in next.visited
            && ScanKids(c, st, kids, depth) == ScanKids(c, next, kids[1..], depth)
            && next.visited <= ScanKids(c, next, kids[1..], depth).visited
  {
    assert Grows(Scan(c, st, kids[0], depth + 1), ScanKids(c, Scan(c, st, kids[0], depth + 1), kids[1..], depth));
  }

  lemma KidsDoneCons(visited: set<string>, kids: seq<Kid>)
    requires kids != [] && kids[0].ptr in visited && KidsDone(visited, kids[1..])
    ensures KidsDone(visited, kids)
  {
    forall i | 0 <= i < |kids| ensures kids[i].ptr in visited { if i > 0 { assert kids[1..][i - 1] == kids[i]; } }
  }

  ghost predicate PositionsDone(visited: set<string>, ptr: string, members: seq<Field>, k: nat) {
    forall j :: k <= j < |POSITIONS| ==> KidsDone(visited, Kids(ptr, members, j))
  }

  lemma PositionsDoneCons(visited: set<string>, more: set<string>, ptr: string, members: seq<Field>, k: nat)
    requires k < |POSITIONS| && KidsDone(visited, Kids(ptr, members, k)) && visited <= more
    requires PositionsDone(more, ptr, members, k + 1)
    ensures PositionsDone(more, ptr, members, k)
  {
    assert KidsDone(more, Kids(ptr, members, k));
  }

  lemma KidsNamed(c: Context, ptr: string, members: seq<Field>, k: nat)
    requires Fair(c) && Named(c, Kid(ptr, Obj(members))) && k < |POSITIONS|
    ensures AllNamed(c, Kids(ptr, members, k))
  {
    ReachPlain(c, Obj(members));
    forall i | 0 <= i < |Kids(ptr, members, k)| ensures Named(c, Kids(ptr, members, k)[i]) {
      KidResolves(c, ptr, members, k, i);
      assert SubschemasAt(members, k)[i] in SubschemasAt(members, k);
      NestsAtPosition(members, SubschemasAt(members, k)[i]);
      ReachStep(c, Obj(members), SubschemasAt(members, k)[i]);
    }
  }

  lemma ReachPlain(c: Context, node: Json)
    requires Fair(c) && Reachable(c, node)
    ensures TablesPlain(node)
  {
  }

  /** The references among these members lead to reachable nodes. */
  ghost predicate RefsReach(c: Context, members: seq<Field>) {
    forall i :: 0 <= i < |members| ==> RefReaches(c, members[i])
  }

  ghost predicate RefReaches(c: Context, f: Field) {
    forall target, node :: IsRef(c, f, target, node) ==> Reachable(c, node)
  }

  lemma NodeRefsReach(c: Context, members: seq<Field>)
    requires Reachable(c, Obj(members))
    ensures RefsReach(c, members)
  {
    forall i | 0 <= i < |members| ensures RefReaches(c, members[i]) {
      forall target, node | IsRef(c, members[i], target, node) ensures Reachable(c, node) {
        ReachStep(c, Obj(members), node);
      }
    }
  }

  /** An open node whose members and positions are all visited can be closed. */
  lemma Close(c: Context, visited: set<string>, open: set<string>, ptr: string, members: seq<Field>)
    requires TablesPlain(Obj(members)) && Resolve(c.root, ptr) == Some(Obj(members))
    requires Sound(c, visited, open + {ptr}) && MembersDone(c, visited, members)
    requires PositionsDone(visited, ptr, members, 0)
    ensures Sound(c, visited, open)
  {
    var node := Obj(members);
    forall next | StepsTo(c, node, next) ensures Covered(c, visited, next) {
      if i, target :| 0 <= i < |members| && IsRef(c, members[i], target, next) {
        assert target in visited;
      } else {
        NestsAtPosition(members, next);
        var k :| 0 <= k < |POSITIONS| && next in SubschemasAt(members, k);
        var i :| 0 <= i < |SubschemasAt(members, k)| && SubschemasAt(members, k)[i] == next;
        KidResolves(c, ptr, members, k, i);
        assert KidsDone(visited, Kids(ptr, members, k));
        assert Kids(ptr, members, k)[i].ptr in visited;
      }
    }
    assert Done(c, visited, ptr);
  }

  lemma {:induction false} ScanSound(c: Context, st: State, kid: Kid, depth: nat, open: set<string>)
    requires depth <= MAX_SCHEMA_DEPTH + 1 && |st.findings| <= MAX_FINDINGS && Scan(c, st, kid, depth).findings == []
    requires Fair(c) && Named(c, kid) && Sound(c, st.visited, open)
    ensures Sound(c, Scan(c, st, kid, depth).visited, open)
    decreases MAX_SCHEMA_DEPTH + 1 - depth, 3
  {
    if kid.ptr !in st.visited {
      var entered := st.(visited := st.visited + {kid.ptr});
      SoundGrows(c, st.visited, open, kid.ptr);
      if kid.node.Bool? {
        assert Done(c, entered.visited, kid.ptr);
        assert Sound(c, entered.visited, open);
      } else if kid.node.Obj? {
        ObjectSound(c, entered, kid, depth, open);
      }
    }
  }

  lemma {:induction false} ObjectSound(c: Context, st: State, kid: Kid, depth: nat, open: set<string>)
    requires depth <= MAX_SCHEMA_DEPTH && |st.findings| <= MAX_FINDINGS && kid.node.Obj?
    requires Fair(c) && Named(c, kid) && Sound(c, st.visited, open + {kid.ptr})
    requires ScanPositions(c, ScanMembers(c, st, kid.ptr, kid.node.members, depth), kid.ptr, kid.node.members, 0,
                           depth).findings == []
    ensures
      Sound(c, ScanPositions(c, ScanMembers(c, st, kid.ptr, kid.node.members, depth), kid.ptr, kid.node.members, 0,
                             depth).visited, open)
    decreases MAX_SCHEMA_DEPTH + 1 - depth, 2, |POSITIONS| + 1
  {
    var members := kid.node.members;
    var mid := ScanMembers(c, st, kid.ptr, members, depth);
    NodeRefsReach(c, members);
    MembersSound(c, st, kid.ptr, members, depth, open + {kid.ptr});
    ReachPlain(c, kid.node);
    PositionsSound(c, mid, kid.ptr, members, 0, depth, open + {kid.ptr});
    Close(c, ScanPositions(c, mid, kid.ptr, members, 0, depth).visited, open, kid.ptr, members);
  }

  lemma {:induction false} MembersSound(c: Context, st: State, ptr: string, members: seq<Field>, depth: nat,
                                        open: set<string>)
    requires depth <= MAX_SCHEMA_DEPTH && |st.findings| <= MAX_FINDINGS
    requires ScanMembers(c, st, ptr, members, depth).findings == []
    requires Fair(c) && RefsReach(c, members) && Sound(c, st.visited, open)
    ensures Sound(c, ScanMembers(c, st, ptr, members, depth).visited, open)
    ensures MembersDone(c, ScanMembers(c, st, ptr, members, depth).visited, members)
    decreases MAX_SCHEMA_DEPTH + 1 - depth, 1, |members|
  {
    if members != [] {
      var next := CheckMember(c, st, ptr, members[0], depth);
      assert Grows(next, ScanMembers(c, next, ptr, members[1..], depth));
      CheckSound(c, st, ptr, members[0], depth, open);
      MembersSound(c, next, ptr, members[1..], depth, open);
      assert forall i :: 0 < i < |members| ==> members[i] == members[1..][i - 1];
    }
  }

  lemma FaultsExact(c: Context, ptr: string, f: Field)
    ensures Faults(c, ptr, f) == [] <==> ShapeOk(c, c.classOf(f.name), f.value)
  {
    if c.classOf(f.name) == TypeNames {
      if f.value.Arr? {
        TypeFaultsExact(ptr, f.value.elems);
      } else if f.value.Str? {
        TypeFaultsExact(ptr, [f.value]);
        assert IsTypeName([f.value][0]) == IsTypeName(f.value);
      }
    }
  }

  lemma {:induction false} TypeFaultsExact(ptr: string, elems: seq<Json>)
    ensures NonStrings(ptr, elems) == [] && Unknowns(ptr, elems) == []
            <==> forall i :: 0 <= i < |elems| ==> IsTypeName(elems[i])
    ensures (forall i :: 0 <= i < |elems| ==> elems[i].Str?) ==> NonStrings(ptr, elems) == []
  {
    if elems != [] {
      var rest := elems[1..];
      TypeFaultsExact(ptr, rest);
      assert forall i :: 0 < i < |elems| ==> elems[i] == rest[i - 1];
      assert forall i :: 0 <= i < |rest| ==> rest[i] == elems[i + 1];
    }
  }

  lemma NoFaults(c: Context, st: State, ptr: string, f: Field, depth: nat)
    requires depth <= MAX_SCHEMA_DEPTH && |st.findings| <= MAX_FINDINGS
    requires CheckMember(c, st, ptr, f, depth).findings == []
    requires !(c.classOf(f.name) == Ref && RefOk(c, f.value))
    ensures CheckMember(c, st, ptr, f, depth) == st && FieldOk(c, f) && c.classOf(f.name) != Ref
  {
    FaultsExact(c, ptr, f);
  }

  lemma RefNamed(c: Context, f: Field)
    requires c.classOf(f.name) == Ref && RefOk(c, f.value) && RefReaches(c, f)
    ensures Named(c, RefKid(c, f.value)) && RefKid(c, f.value).ptr == f.value.s
  {
    assert IsRef(c, f, f.value.s, RefKid(c, f.value).node);
  }

  lemma {:induction false} RefSound(c: Context, st: State, kid: Kid, depth: nat, open: set<string>)
    requires depth <= MAX_SCHEMA_DEPTH && |st.findings| <= MAX_FINDINGS && Scan(c, st, kid, depth + 1).findings == []
    requires Fair(c) && Named(c, kid) && Sound(c, st.visited, open)
    ensures Sound(c, Scan(c, st, kid, depth + 1).visited, open) && kid.ptr in Scan(c, st, kid, depth + 1).visited
    decreases MAX_SCHEMA_DEPTH + 1 - depth, 0, 0
  {
    ScanSound(c, st, kid, depth + 1, open);
  }

  lemma {:induction false} CheckSound(c: Context, st: State, ptr: string, f: Field, depth: nat, open: set<string>)
    requires depth <= MAX_SCHEMA_DEPTH && |st.findings| <= MAX_FINDINGS
    requires CheckMember(c, st, ptr, f, depth).findings == []
    requires Fair(c) && RefReaches(c, f) && Sound(c, st.visited, open)
    ensures Sound(c, CheckMember(c, st, ptr, f, depth).visited, open)
    ensures FieldOk(c, f)
    ensures c.classOf(f.name) == Ref ==> f.value.Str? && f.value.s in CheckMember(c, st, ptr, f, depth).visited
    decreases MAX_SCHEMA_DEPTH + 1 - depth, 0, 1
  {
    if c.classOf(f.name) == Ref && RefOk(c, f.value) {
      RefNamed(c, f);
      RefSound(c, st, RefKid(c, f.value), depth, open);
    } else {
      NoFaults(c, st, ptr, f, depth);
    }
  }

  lemma {:induction false} PositionsSound(
    c: Context, st: State, ptr: string, members: seq<Field>, k: nat, depth: nat, open: set<string>)
    requires depth <= MAX_SCHEMA_DEPTH && k <= |POSITIONS| && |st.findings| <= MAX_FINDINGS
    requires ScanPositions(c, st, ptr, members, k, depth).findings == []
    requires Fair(c) && Named(c, Kid(ptr, Obj(members))) && Sound(c, st.visited, open)
    ensures Sound(c, ScanPositions(c, st, ptr, members, k, depth).visited, open)
    ensures PositionsDone(ScanPositions(c, st, ptr, members, k, depth).visited, ptr, members, k)
    decreases MAX_SCHEMA_DEPTH + 1 - depth, 2, |POSITIONS| - k
  {
    if k < |POSITIONS| {
      var kids := Kids(ptr, members, k);
      var next := ScanKids(c, st, kids, depth);
      var end := ScanPositions(c, next, ptr, members, k + 1, depth);
      assert Grows(next, end);
      KidsNamed(c, ptr, members, k);
      KidsSound(c, st, kids, depth, open, next);
      PositionsSound(c, next, ptr, members, k + 1, depth, open);
      PositionsDoneCons(next.visited, end.visited, ptr, members, k);
    }
  }

  lemma {:induction false} KidsSound(c: Context, st: State, kids: seq<Kid>, depth: nat, open: set<string>, end: State)
    requires depth <= MAX_SCHEMA_DEPTH && |st.findings| <= MAX_FINDINGS
    requires end == ScanKids(c, st, kids, depth) && end.findings == []
    requires Fair(c) && Sound(c, st.visited, open) && AllNamed(c, kids)
    ensures Sound(c, end.visited, open) && KidsDone(end.visited, kids)
    decreases MAX_SCHEMA_DEPTH + 1 - depth, 1, |kids|
  {
    if kids != [] {
      NoneBefore(c, st, kids, depth);
      AllNamedCons(c, kids);
      ScanSound(c, st, kids[0], depth + 1, open);
      KidsSound(c, Scan(c, st, kids[0], depth + 1), kids[1..], depth, open, end);
      KidsDoneCons(end.visited, kids);
    }
  }

  lemma PathPrefix(c: Context, path: seq<Json>, n: nat)
    requires IsPath(c, path) && 0 < n <= |path|
    ensures IsPath(c, path[..n])
  {
    var front := path[..n];
    forall i | 0 <= i < n - 1 ensures StepAt(c, front, i) { assert StepAt(c, path, i); }
  }

  lemma {:induction false} PathCovered(c: Context, visited: set<string>, path: seq<Json>)
    requires Sound(c, visited, {}) && "#" in visited && IsPath(c, path)
    ensures Covered(c, visited, path[|path| - 1])
  {
    if |path| == 1 {
      assert Resolve(c.root, "#") == Some(c.root);
    } else {
      var front := path[..|path| - 1];
      PathPrefix(c, path, |path| - 1);
      PathCovered(c, visited, front);
      var node := front[|front| - 1];
      var p :| p in visited && Resolve(c.root, p) == Some(node);
      assert Done(c, visited, p) && StepAt(c, path, |path| - 2);
    }
  }

  /**
   With distinct subschema names and nothing to percent-decode in them, an empty scan
   means that every node on every path of schema positions and local references is
   well formed.
   */
  lemma EmptyScanIsSound(c: Context, path: seq<Json>)
    requires Findings(c) == [] && Fair(c) && IsPath(c, path)
    ensures forall i :: 0 <= i < |path| ==> LocalOk(c, path[i])
  {
    var visited := Scan(c, Start(), Kid("#", c.root), 0).visited;
    assert Resolve(c.root, "#") == Some(c.root);
    ReachRoot(c);
    ScanSound(c, Start(), Kid("#", c.root), 0, {});
    forall i | 0 <= i < |path| ensures LocalOk(c, path[i]) {
      var front := path[..i + 1];
      PathPrefix(c, path, i + 1);
      PathCovered(c, visited, front);
      var p :| p in visited && Resolve(c.root, p) == Some(front[i]);
      assert Done(c, visited, p);
    }
  }

  // ---- Every finding has a cause -------------------------------------------------------------

  /** Scanned nodes from the root down, each a step from the one before, no pointer twice. */
  ghost predicate IsTrail(c: Context, trail: seq<Kid>) {
    && trail != [] && trail[0] == Kid("#", c.root)
    && (forall i :: 0 <= i < |trail| - 1 ==> KidAt(c, trail, i))
    && (forall i, j :: 0 <= i < j < |trail| ==> trail[i].ptr != trail[j].ptr)
  }

  ghost predicate KidAt(c: Context, trail: seq<Kid>, i: nat) { i + 1 < |trail| && IsKid(c, trail[i], trail[i + 1]) }

  function Last(trail: seq<Kid>): Kid
    requires trail != []
  {
    trail[|trail| - 1]
  }

  ghost predicate Culprit(c: Context, f: Finding, trail: seq<Kid>) {
    IsTrail(c, trail) && Last(trail).ptr == f.ptr
    && (if f.reason == TooDeep then |trail| == MAX_SCHEMA_DEPTH + 2 else !LocalOk(c, Last(trail).node))
  }

  ghost predicate Blamed(c: Context, f: Finding) { exists trail :: Culprit(c, f, trail) }

  ghost predicate AllBlamed(c: Context, findings: seq<Finding>) {
    forall i :: 0 <= i < |findings| ==> Blamed(c, findings[i])
  }

  /** `trail` has been visited and `kid` comes next. */
  ghost predicate Leads(c: Context, visited: set<string>, trail: seq<Kid>, kid: Kid) {
    && (if trail == [] then kid == Kid("#", c.root) else IsTrail(c, trail) && IsKid(c, Last(trail), kid))
    && Visited(visited, trail)
  }

  ghost predicate Visited(visited: set<string>, trail: seq<Kid>) {
    forall i :: 0 <= i < |trail| ==> trail[i].ptr in visited
  }

  lemma TrailOn(c: Context, visited: set<string>, trail: seq<Kid>, kid: Kid)
    requires Leads(c, visited, trail, kid) && kid.ptr !in visited
    ensures IsTrail(c, trail + [kid]) && Visited(visited + {kid.ptr}, trail + [kid])
  {
    var here := trail + [kid];
    forall i | 0 <= i < |here| - 1 ensures KidAt(c, here, i) {
      if i < |trail| - 1 { assert KidAt(c, trail, i); }
    }
  }

  lemma PushBlamed(c: Context, st: State, f: Finding, trail: seq<Kid>)
    requires AllBlamed(c, st.findings) && Culprit(c, f, trail)
    ensures AllBlamed(c, Push(st, f).findings)
  {
    assert Blamed(c, f);
  }

  lemma {:induction false} PushAllBlamed(c: Context, st: State, fs: seq<Finding>, trail: seq<Kid>)
    requires AllBlamed(c, st.findings) && forall i :: 0 <= i < |fs| ==> Culprit(c, fs[i], trail)
    ensures AllBlamed(c, PushAll(st, fs).findings)
    decreases |fs|
  {
    if fs != [] {
      PushBlamed(c, st, fs[0], trail);
      PushAllBlamed(c, Push(st, fs[0]), fs[1..], trail);
    }
  }

  lemma {:induction false} TypeFaultsHere(ptr: string, elems: seq<Json>)
    ensures forall i :: 0 <= i < |NonStrings(ptr, elems)| ==>
              NonStrings(ptr, elems)[i].ptr == ptr && NonStrings(ptr, elems)[i].reason != TooDeep
    ensures forall i :: 0 <= i < |Unknowns(ptr, elems)| ==>
              Unknowns(ptr, elems)[i].ptr == ptr && Unknowns(ptr, elems)[i].reason != TooDeep
  {
    if elems != [] { TypeFaultsHere(ptr, elems[1..]); }
  }

  lemma FaultsHere(c: Context, ptr: string, f: Field)
    ensures forall i :: 0 <= i < |Faults(c, ptr, f)| ==>
              Faults(c, ptr, f)[i].ptr == ptr && Faults(c, ptr, f)[i].reason != TooDeep
  {
    if f.value.Arr? { TypeFaultsHere(ptr, f.value.elems); }
    if f.value.Str? { TypeFaultsHere(ptr, [f.value]); }
  }

  lemma {:induction false} ScanBlamed(c: Context, st: State, kid: Kid, depth: nat, trail: seq<Kid>)
    requires depth == |trail| <= MAX_SCHEMA_DEPTH + 1 && |st.findings| <= MAX_FINDINGS
    requires AllBlamed(c, st.findings) && Leads(c, st.visited, trail, kid)
    ensures AllBlamed(c, Scan(c, st, kid, depth).findings)
    decreases MAX_SCHEMA_DEPTH + 1 - depth, 3
  {
    if |st.findings| < MAX_FINDINGS && kid.ptr !in st.visited {
      var entered := st.(visited := st.visited + {kid.ptr});
      var here := Enter(c, st.visited, trail, kid);
      if depth > MAX_SCHEMA_DEPTH {
        PushBlamed(c, entered, Finding(kid.ptr, TooDeep), here);
      } else {
        NodeBlamed(c, entered, kid, here, depth);
      }
    }
  }

  lemma Enter(c: Context, visited: set<string>, trail: seq<Kid>, kid: Kid) returns (here: seq<Kid>)
    requires Leads(c, visited, trail, kid) && kid.ptr !in visited
    ensures |here| == |trail| + 1 && Last(here) == kid && IsTrail(c, here) && Visited(visited + {kid.ptr}, here)
  {
    TrailOn(c, visited, trail, kid);
    here := trail + [kid];
  }

  /** The node of an entered pointer, within the depth limit. */
  lemma {:induction false} NodeBlamed(c: Context, st: State, kid: Kid, here: seq<Kid>, depth: nat)
    requires depth <= MAX_SCHEMA_DEPTH && |here| == depth + 1 && |st.findings| <= MAX_FINDINGS && Last(here) == kid
    requires AllBlamed(c, st.findings) && IsTrail(c, here) && Visited(st.visited, here)
    ensures kid.node.Obj? ==>
              var mid := ScanMembers(c, st, kid.ptr, kid.node.members, depth);
              AllBlamed(c, ScanPositions(c, mid, kid.ptr, kid.node.members, 0, depth).findings)
    ensures !kid.node.Obj? && !kid.node.Bool? ==> AllBlamed(c, Push(st, Finding(kid.ptr, NotASchema)).findings)
    decreases MAX_SCHEMA_DEPTH + 1 - depth, 2, |POSITIONS| + 2
  {
    if kid.node.Obj? {
      ObjectBlamed(c, st, here, depth);
    } else if !kid.node.Bool? {
      PushBlamed(c, st, Finding(kid.ptr, NotASchema), here);
    }
  }

  lemma {:induction false} ObjectBlamed(c: Context, st: State, here: seq<Kid>, depth: nat)
    requires depth <= MAX_SCHEMA_DEPTH && |here| == depth + 1 && |st.findings| <= MAX_FINDINGS
    requires AllBlamed(c, st.findings) && IsTrail(c, here) && Visited(st.visited, here) && Last(here).node.Obj?
    ensures var members := Last(here).node.members;
            var mid := ScanMembers(c, st, Last(here).ptr, members, depth);
            AllBlamed(c, ScanPositions(c, mid, Last(here).ptr, members, 0, depth).findings)
    decreases MAX_SCHEMA_DEPTH + 1 - depth, 2, |POSITIONS| + 1
  {
    var members := Last(here).node.members;
    assert members[0..] == members;
    MembersBlamed(c, st, here, 0, depth);
    PositionsBlamed(c, ScanMembers(c, st, Last(here).ptr, members, depth), here, 0, depth);
  }

  lemma {:induction false} MembersBlamed(c: Context, st: State, here: seq<Kid>, i: nat, depth: nat)
    requires depth <= MAX_SCHEMA_DEPTH && |here| == depth + 1 && |st.findings| <= MAX_FINDINGS
    requires AllBlamed(c, st.findings) && IsTrail(c, here) && Visited(st.visited, here)
    requires Last(here).node.Obj? && i <= |Last(here).node.members|
    ensures AllBlamed(c, ScanMembers(c, st, Last(here).ptr, Last(here).node.members[i..], depth).findings)
    decreases MAX_SCHEMA_DEPTH + 1 - depth, 1, |Last(here).node.members| - i
  {
    var ptr, members := Last(here).ptr, Last(here).node.members;
    if i < |members| {
      assert members[i..][0] == members[i] && members[i..][1..] == members[i + 1..];
      CheckBlamed(c, st, here, i, depth);
      MembersBlamed(c, CheckMember(c, st, ptr, members[i], depth), here, i + 1, depth);
    }
  }

  /** A malformed member makes its node the culprit. */
  lemma FieldBlames(c: Context, here: seq<Kid>, i: nat, f: Finding)
    requires IsTrail(c, here) && Last(here).node.Obj? && i < |Last(here).node.members|
    requires !FieldOk(c, Last(here).node.members[i])
    requires f.ptr == Last(here).ptr && f.reason != TooDeep
    ensures Culprit(c, f, here)
  {
  }

  lemma FaultsBlamed(c: Context, st: State, here: seq<Kid>, i: nat)
    requires AllBlamed(c, st.findings) && IsTrail(c, here) && Last(here).node.Obj? && i < |Last(here).node.members|
    ensures AllBlamed(c, PushAll(st, Faults(c, Last(here).ptr, Last(here).node.members[i])).findings)
  {
    var ptr, f := Last(here).ptr, Last(here).node.members[i];
    var faults := Faults(c, ptr, f);
    FaultsExact(c, ptr, f);
    FaultsHere(c, ptr, f);
    forall j | 0 <= j < |faults| ensures Culprit(c, faults[j], here) { FieldBlames(c, here, i, faults[j]); }
    PushAllBlamed(c, st, faults, here);
  }

  lemma {:induction false} CheckBlamed(c: Context, st: State, here: seq<Kid>, i: nat, depth: nat)
    requires depth <= MAX_SCHEMA_DEPTH && |here| == depth + 1 && |st.findings| <= MAX_FINDINGS
    requires AllBlamed(c, st.findings) && IsTrail(c, here) && Visited(st.visited, here)
    requires Last(here).node.Obj? && i < |Last(here).node.members|
    ensures AllBlamed(c, CheckMember(c, st, Last(here).ptr, Last(here).node.members[i], depth).findings)
    decreases MAX_SCHEMA_DEPTH + 1 - depth, 0
  {
    var ptr, f := Last(here).ptr, Last(here).node.members[i];
    if c.classOf(f.name) == Unknown {
      FieldBlames(c, here, i, Finding(ptr, Unsupported(f.name)));
      PushBlamed(c, st, Finding(ptr, Unsupported(f.name)), here);
    } else if c.classOf(f.name) == Ref && RefOk(c, f.value) {
      var next := RefKid(c, f.value);
      assert IsRef(c, f, next.ptr, next.node);
      ScanBlamed(c, st, next, depth + 1, here);
    } else {
      FaultsBlamed(c, st, here, i);
    }
  }

  lemma {:induction false} PositionsBlamed(c: Context, st: State, here: seq<Kid>, k: nat, depth: nat)
    requires depth <= MAX_SCHEMA_DEPTH && |here| == depth + 1 && |st.findings| <= MAX_FINDINGS && k <= |POSITIONS|
    requires AllBlamed(c, st.findings) && IsTrail(c, here) && Visited(st.visited, here) && Last(here).node.Obj?
    ensures AllBlamed(c, ScanPositions(c, st, Last(here).ptr, Last(here).node.members, k, depth).findings)
    decreases MAX_SCHEMA_DEPTH + 1 - depth, 2, |POSITIONS| - k
  {
    if k < |POSITIONS| {
      var kids := Kids(Last(here).ptr, Last(here).node.members, k);
      KidsBlamed(c, st, here, kids, depth);
      PositionsBlamed(c, ScanKids(c, st, kids, depth), here, k + 1, depth);
    }
  }

  lemma {:induction false} KidsBlamed(c: Context, st: State, here: seq<Kid>, kids: seq<Kid>, depth: nat)
    requires depth <= MAX_SCHEMA_DEPTH && |here| == depth + 1 && |st.findings| <= MAX_FINDINGS
    requires AllBlamed(c, st.findings) && IsTrail(c, here) && Visited(st.visited, here)
    requires forall i :: 0 <= i < |kids| ==> IsKid(c, Last(here), kids[i])
    ensures AllBlamed(c, ScanKids(c, st, kids, depth).findings)
    decreases MAX_SCHEMA_DEPTH + 1 - depth, 1, |kids|
  {
    if kids != [] {
      ScanBlamed(c, st, kids[0], depth + 1, here);
      KidsBlamed(c, Scan(c, st, kids[0], depth + 1), here, kids[1..], depth);
    }
  }

  /**
   The scan ends with at most sixteen findings, each at the pointer of a scanned
   node that is malformed or too deep.
   */
  lemma FindingsHaveCauses(c: Context)
    ensures |Findings(c)| <= MAX_FINDINGS && AllBlamed(c, Findings(c))
  {
    ScanBlamed(c, Start(), Kid("#", c.root), 0, []);
  }

  lemma TrailIsPath(c: Context, trail: seq<Kid>) returns (path: seq<Json>)
    requires IsTrail(c, trail)
    ensures IsPath(c, path) && path[|path| - 1] == Last(trail).node
  {
    path := seq(|trail|, i requires 0 <= i < |trail| => trail[i].node);
    forall i | 0 <= i < |path| - 1 ensures StepAt(c, path, i) {
      var from, to := trail[i], trail[i + 1];
      assert KidAt(c, trail, i);
      if k :| 0 <= k < |POSITIONS| && to in Kids(from.ptr, from.node.members, k) {
        assert to.node in SubschemasAt(from.node.members, k);
        NestsAtPosition(from.node.members, to.node);
      }
    }
  }

  /** Where no trail exceeds the depth limit, the scan is empty exactly when every reachable node is well formed. */
  lemma ScanExact(c: Context)
    requires Fair(c) && forall trail :: IsTrail(c, trail) ==> |trail| <= MAX_SCHEMA_DEPTH + 1
    ensures Findings(c) == [] <==> forall path :: IsPath(c, path) ==> LocalOk(c, path[|path| - 1])
  {
    if Findings(c) == [] {
      forall path | IsPath(c, path) ensures LocalOk(c, path[|path| - 1]) { EmptyScanIsSound(c, path); }
    } else {
      FindingsHaveCauses(c);
      var f := Findings(c)[0];
      assert Blamed(c, f);
      var trail :| Culprit(c, f, trail);
      var path := TrailIsPath(c, trail);
    }
  }
}
