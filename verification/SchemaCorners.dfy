/** Documents on which an empty scan does not mean that every reachable node is well formed. */
module SchemaCorners {
  import opened Options
  import opened Text
  import opened Percent
  import opened JsonPointer
  import opened SchemaScan

  /** Two properties of one name, the first a boolean schema. */
  function Doubled(name: string, second: Json): Json {
    Obj([Field("properties", Obj([Field(name, Bool(true)), Field(name, second)]))])
  }

  lemma CleanMember(c: Context, st: State, ptr: string, f: Field, depth: nat)
    requires depth <= MAX_SCHEMA_DEPTH && FieldOk(c, f) && c.classOf(f.name) != Ref
    ensures CheckMember(c, st, ptr, f, depth) == st
  {
    FaultsExact(c, ptr, f);
  }

  /** Members without references or faults leave the state as it is. */
  lemma {:induction false} CleanMembers(c: Context, st: State, ptr: string, members: seq<Field>, depth: nat)
    requires depth <= MAX_SCHEMA_DEPTH
    requires CleanFields(c, members)
    ensures ScanMembers(c, st, ptr, members, depth) == st
    decreases |members|
  {
    if members != [] {
      CleanMember(c, st, ptr, members[0], depth);
      CleanMembers(c, st, ptr, members[1..], depth);
    }
  }

  lemma {:induction false} SkipPositions(c: Context, st: State, ptr: string, members: seq<Field>, k: nat, n: nat,
                                         depth: nat)
    requires depth <= MAX_SCHEMA_DEPTH && k <= n <= |POSITIONS|
    requires forall j :: k <= j < n ==> Member(members, POSITIONS[j]).None?
    ensures ScanPositions(c, st, ptr, members, k, depth) == ScanPositions(c, st, ptr, members, n, depth)
    decreases n - k
  {
    if k < n {
      assert Kids(ptr, members, k) == [];
      SkipPositions(c, st, ptr, members, k + 1, n, depth);
    }
  }

  lemma TwoKids(c: Context, st: State, kids: seq<Kid>, depth: nat)
    requires depth <= MAX_SCHEMA_DEPTH && |kids| == 2
    ensures ScanKids(c, st, kids, depth) == Scan(c, Scan(c, st, kids[0], depth + 1), kids[1], depth + 1)
  {
    var next := Scan(c, st, kids[0], depth + 1);
    assert ScanKids(c, st, kids, depth) == ScanKids(c, next, kids[1..], depth);
    OneKid(c, next, kids[1..], depth);
  }

  lemma OneKid(c: Context, st: State, kids: seq<Kid>, depth: nat)
    requires depth <= MAX_SCHEMA_DEPTH && |kids| == 1
    ensures ScanKids(c, st, kids, depth) == Scan(c, st, kids[0], depth + 1)
  {
    assert kids[1..] == [];
  }

  function Visit(st: State, ptr: string): State { st.(visited := st.visited + {ptr}) }

  predicate CleanFields(c: Context, members: seq<Field>) {
    forall i :: 0 <= i < |members| ==> FieldOk(c, members[i]) && c.classOf(members[i].name) != Ref
  }

  lemma ScanClean(c: Context, st: State, kid: Kid, depth: nat)
    requires depth <= MAX_SCHEMA_DEPTH && |st.findings| < MAX_FINDINGS && kid.ptr !in st.visited
    requires kid.node.Obj? && CleanFields(c, kid.node.members)
    ensures Scan(c, st, kid, depth) == ScanPositions(c, Visit(st, kid.ptr), kid.ptr, kid.node.members, 0, depth)
  {
    CleanMembers(c, Visit(st, kid.ptr), kid.ptr, kid.node.members, depth);
  }

  /** Scanning the object at the root, position by position. */
  lemma ScanRoot(c: Context, depth: nat)
    requires c.root.Obj? && CleanFields(c, c.root.members) && depth == 0
    ensures Findings(c) == ScanPositions(c, Visit(Start(), "#"), "#", c.root.members, 0, depth).findings
  {
    ScanClean(c, Start(), Kid("#", c.root), depth);
  }

  lemma DoubledKids(name: string, second: Json)
    ensures var kids := Kids("#", Doubled(name, second).members, 0);
            |kids| == 2 && kids[0].node == Bool(true) && kids[1].node == second && kids[0].ptr == kids[1].ptr
              && |kids[0].ptr| > 1
  {
    var members := Doubled(name, second).members;
    assert Member(members, POSITIONS[0]) == Some(members[0].value);
  }

  lemma BoolThenSame(c: Context, st: State, kids: seq<Kid>, depth: nat)
    requires depth < MAX_SCHEMA_DEPTH && |st.findings| < MAX_FINDINGS
    requires |kids| == 2 && kids[0].node.Bool? && kids[0].ptr == kids[1].ptr
    ensures ScanKids(c, st, kids, depth) == (if kids[0].ptr in st.visited then st else Visit(st, kids[0].ptr))
  {
    TwoKids(c, st, kids, depth);
  }

  lemma DoubledScan(c: Context, name: string, second: Json, depth: nat)
    requires c.root == Doubled(name, second) && depth < MAX_SCHEMA_DEPTH
    ensures ScanPositions(c, Visit(Start(), "#"), "#", c.root.members, 0, depth).findings == []
  {
    var members, st := c.root.members, Visit(Start(), "#");
    var kids := Kids("#", members, 0);
    DoubledKids(name, second);
    BoolThenSame(c, st, kids, depth);
    forall j | 1 <= j < |POSITIONS| ensures Member(members, POSITIONS[j]).None? { OtherPosition(members[0].value, j); }
    SkipPositions(c, Visit(st, kids[0].ptr), "#", members, 1, |POSITIONS|, depth);
  }

  /** A second property of the same name is never scanned. */
  lemma DuplicateNameHides(c: Context, name: string, second: Json)
    requires c.classOf == ClassOf && c.root == Doubled(name, second) && !LocalOk(c, second)
    ensures Findings(c) == [] && IsPath(c, [c.root, second])
  {
    ScanRoot(c, 0);
    DoubledScan(c, name, second, 0);
    DoubledKids(name, second);
    assert SubschemasAt(c.root.members, 0)[1] == second;
    NestsAtPosition(c.root.members, second);
    assert StepsTo(c, c.root, second);
  }

  lemma OtherPosition(v: Json, j: nat)
    requires 1 <= j < |POSITIONS|
    ensures Member([Field("properties", v)], POSITIONS[j]).None?
  {
    assert [Field("properties", v)][1..] == [];
  }

  // ---- A member name with an escape in it ---------------------------------------------------

  /** A name that needs no escape of either kind. */
  predicate Plain(s: string) { '~' !in s && '/' !in s && '%' !in s }

  /** The name that decodes to the path from a definition to its `default`. */
  function Spelled(name: string): string { name + "%2F" + "default" }

  function Target(name: string): string { "#/$defs/" + Spelled(name) }

  function Defs(name: string, bad: Json): seq<Field> {
    [Field(name, Obj([Field("default", bad)])), Field(Spelled(name), Bool(true))]
  }

  function Uses(name: string): seq<Field> { [Field("z", Obj([Field("$ref", Str(Target(name)))]))] }

  /** A definition's data, a definition whose name spells the pointer to that data, and a reference to that pointer. */
  function Shadow(name: string, bad: Json): seq<Field> {
    [Field("$defs", Obj(Defs(name, bad))), Field("definitions", Obj(Uses(name)))]
  }

  lemma {:induction false} ExpandNothing(s: string, c: char, to: string)
    requires c !in s
    ensures Expand(s, c, to) == s
  {
    if s != [] {
      assert s[0] in s;
      ExpandNothing(s[1..], c, to);
    }
  }

  lemma EscapeNothing(s: string)
    requires '~' !in s && '/' !in s
    ensures PtrEscape(s) == s
  {
    ExpandNothing(s, '~', "~0");
    ExpandNothing(s, '/', "~1");
  }

  lemma {:induction false} DecodeSpelled(front: string, back: string)
    requires '%' !in front && '%' !in back
    ensures DecodeOnce(front + "%2F" + back) == front + "/" + back
  {
    var s := front + "%2F" + back;
    if front == [] {
      assert s == "%2F" + back;
      DecodeEscapedSlash(back);
      NoEscapeDecodes(back);
    } else {
      assert front[0] in front && s[0] == front[0] && s[1..] == front[1..] + "%2F" + back;
      DecodeHead(s);
      DecodeSpelled(front[1..], back);
    }
  }

  lemma SplitThree(a: string, b: string, c: string)
    requires '/' !in a && '/' !in b && '/' !in c
    ensures Split(a + "/" + (b + "/" + c), '/') == [a, b, c]
  {
    SplitCons(a, b + "/" + c, '/');
    SplitCons(b, c, '/');
    SplitNone(c, '/');
    assert [a] + ([b] + [c]) == [a, b, c];
  }

  lemma UnescapedThree(a: string, b: string, c: string)
    requires '~' !in a && '~' !in b && '~' !in c
    ensures Unescaped([a, b, c]) == [a, b, c]
  {
    UnescapePlain(a);
    UnescapePlain(b);
    UnescapePlain(c);
  }

  lemma DecodeThree(a: string, b: string, c: string)
    requires '%' !in a && '%' !in b && '%' !in c
    ensures DecodeOnce(a + "/" + (b + "%2F" + c)) == a + "/" + (b + "/" + c)
  {
    DecodeSlash(a, b + "%2F" + c);
    NoEscapeDecodes(a);
    DecodeSpelled(b, c);
  }

  lemma TokensOf(target: string, body: string)
    requires target == "#/" + body
    ensures Tokens(target) == Some(Unescaped(Split(DecodeOnce(body), '/')))
  {
    assert target[2..] == body;
  }

  lemma TokensThree(target: string, a: string, b: string, c: string)
    requires Plain(a) && Plain(b) && Plain(c) && target == "#/" + (a + "/" + (b + "%2F" + c))
    ensures Tokens(target) == Some([a, b, c])
  {
    DecodeThree(a, b, c);
    SplitThree(a, b, c);
    UnescapedThree(a, b, c);
    TokensOf(target, a + "/" + (b + "%2F" + c));
  }

  lemma TargetTokens(name: string)
    requires Plain(name)
    ensures Tokens(Target(name)) == Some(["$defs", name, "default"])
  {
    assert Target(name) == "#/" + ("$defs" + "/" + (name + "%2F" + "default"));
    TokensThree(Target(name), "$defs", name, "default");
  }

  lemma WalkThree(node: Json, a: string, b: string, c: string, na: Json, nb: Json, nc: Json)
    requires Child(node, a) == Some(na) && Child(na, b) == Some(nb) && Child(nb, c) == Some(nc)
    ensures Walk(node, [a, b, c]) == Some(nc)
  {
    var tokens := [a, b, c];
    assert tokens[1..] == [b, c] && [b, c][1..] == [c] && [c][1..] == [];
    assert Walk(nb, [c]) == Walk(nc, []) && Walk(na, [b, c]) == Walk(nb, [c]);
  }

  lemma TargetResolves(name: string, bad: Json)
    requires Plain(name)
    ensures Resolve(Obj(Shadow(name, bad)), Target(name)) == Some(bad)
  {
    TargetTokens(name);
    var a := Obj([Field("default", bad)]);
    WalkThree(Obj(Shadow(name, bad)), "$defs", name, "default", Obj(Defs(name, bad)), a, bad);
  }

  lemma DefaultIsData(f: Field)
    requires f.name == "default"
    ensures ClassOf(f.name) == Data
    ensures forall j :: 0 <= j < |POSITIONS| ==> Member([f], POSITIONS[j]).None?
  {
    forall j | 0 <= j < |POSITIONS| ensures Member([f], POSITIONS[j]).None? {
      assert POSITIONS[j] != "default" && [f][1..] == [];
    }
  }

  /** A node whose only member is data. */
  lemma DataScan(c: Context, st: State, kid: Kid, v: Json, depth: nat)
    requires depth <= MAX_SCHEMA_DEPTH && |st.findings| < MAX_FINDINGS && kid.ptr !in st.visited
    requires c.classOf == ClassOf && kid.node == Obj([Field("default", v)])
    ensures Scan(c, st, kid, depth) == Visit(st, kid.ptr)
  {
    var members := kid.node.members;
    DefaultIsData(members[0]);
    CleanMembers(c, Visit(st, kid.ptr), kid.ptr, members, depth);
    SkipPositions(c, Visit(st, kid.ptr), kid.ptr, members, 0, |POSITIONS|, depth);
  }

  lemma VisitedRef(c: Context, st: State, ptr: string, f: Field, depth: nat)
    requires depth <= MAX_SCHEMA_DEPTH && c.classOf(f.name) == Ref && RefOk(c, f.value)
    requires f.value.s in st.visited
    ensures CheckMember(c, st, ptr, f, depth) == st
  {
  }

  lemma OneRef(c: Context, st: State, ptr: string, members: seq<Field>, depth: nat)
    requires depth <= MAX_SCHEMA_DEPTH && |members| == 1 && CheckMember(c, st, ptr, members[0], depth) == st
    ensures ScanMembers(c, st, ptr, members, depth) == st
  {
    assert members[1..] == [];
  }

  lemma RefIsRef(f: Field)
    requires f.name == "$ref"
    ensures ClassOf(f.name) == Ref
    ensures forall j :: 0 <= j < |POSITIONS| ==> Member([f], POSITIONS[j]).None?
  {
    forall j | 0 <= j < |POSITIONS| ensures Member([f], POSITIONS[j]).None? {
      assert POSITIONS[j] != "$ref" && [f][1..] == [];
    }
  }

  /** A node whose only member is a reference to something visited. */
  lemma RefScan(c: Context, st: State, kid: Kid, target: string, depth: nat)
    requires depth <= MAX_SCHEMA_DEPTH && |st.findings| < MAX_FINDINGS && kid.ptr !in st.visited
    requires c.classOf == ClassOf && kid.node == Obj([Field("$ref", Str(target))]) && Resolve(c.root, target).Some?
    requires target in st.visited
    ensures Scan(c, st, kid, depth) == Visit(st, kid.ptr)
  {
    var members, entered := kid.node.members, Visit(st, kid.ptr);
    RefIsRef(members[0]);
    VisitedRef(c, entered, kid.ptr, members[0], depth);
    OneRef(c, entered, kid.ptr, members, depth);
    SkipPositions(c, entered, kid.ptr, members, 0, |POSITIONS|, depth);
  }

  lemma TableKid(members: seq<Field>, k: nat, table: seq<Field>, i: nat)
    requires 6 <= k < |POSITIONS| && Member(members, POSITIONS[k]) == Some(Obj(table)) && i < |table|
    requires '~' !in table[i].name && '/' !in table[i].name
    ensures |Kids("#", members, k)| == |table|
    ensures Kids("#", members, k)[i] == Kid("#" + "/" + POSITIONS[k] + "/" + table[i].name, table[i].value)
  {
    EscapeNothing(table[i].name);
  }

  lemma ShadowMembers(name: string, bad: Json)
    ensures var members := Shadow(name, bad);
            && Member(members, POSITIONS[6]) == Some(Obj(Defs(name, bad)))
            && Member(members, POSITIONS[7]) == Some(Obj(Uses(name)))
            && forall j :: 0 <= j < 6 ==> Member(members, POSITIONS[j]).None?
  {
    var members := Shadow(name, bad);
    MemberTwo(members, POSITIONS[6]);
    MemberTwo(members, POSITIONS[7]);
    forall j | 0 <= j < 6 ensures Member(members, POSITIONS[j]).None? {
      MemberTwo(members, POSITIONS[j]);
      assert POSITIONS[j] != "$defs" && POSITIONS[j] != "definitions";
    }
  }

  lemma MemberTwo(members: seq<Field>, name: string)
    requires |members| == 2
    ensures Member(members, name)
         == if members[0].name == name then Some(members[0].value)
           else if members[1].name == name then Some(members[1].value) else None
  {
    assert members[1..][0] == members[1] && members[1..][1..] == [];
    assert Member(members[1..], name) == if members[1].name == name then Some(members[1].value) else Member([], name);
  }

  lemma DefsKids(name: string, bad: Json)
    requires Plain(name)
    ensures var kids := Kids("#", Shadow(name, bad), 6);
            && |kids| == 2 && kids[0] == Kid("#/$defs/" + name, Obj([Field("default", bad)]))
            && kids[1] == Kid(Target(name), Bool(true))
  {
    ShadowMembers(name, bad);
    assert '~' !in Spelled(name) && '/' !in Spelled(name);
    TableKid(Shadow(name, bad), 6, Defs(name, bad), 0);
    TableKid(Shadow(name, bad), 6, Defs(name, bad), 1);
    assert "#" + "/" + POSITIONS[6] + "/" == "#/$defs/";
  }

  lemma UsesKids(name: string, bad: Json)
    requires Plain(name)
    ensures var kids := Kids("#", Shadow(name, bad), 7);
            |kids| == 1 && kids[0] == Kid("#/definitions/z", Obj([Field("$ref", Str(Target(name)))]))
  {
    ShadowMembers(name, bad);
    TableKid(Shadow(name, bad), 7, Uses(name), 0);
    assert "#" + "/" + POSITIONS[7] + "/" + "z" == "#/definitions/z";
  }

  lemma BoolScan(c: Context, st: State, kid: Kid, depth: nat)
    requires depth <= MAX_SCHEMA_DEPTH && |st.findings| < MAX_FINDINGS && kid.ptr !in st.visited && kid.node.Bool?
    ensures Scan(c, st, kid, depth) == Visit(st, kid.ptr)
  {
  }

  lemma TwoDefinitions(c: Context, st: State, kids: seq<Kid>, v: Json, depth: nat)
    requires depth < MAX_SCHEMA_DEPTH && |st.findings| < MAX_FINDINGS && |kids| == 2 && kids[0].ptr != kids[1].ptr
    requires c.classOf == ClassOf && kids[0].node == Obj([Field("default", v)]) && kids[1].node.Bool?
    requires kids[0].ptr !in st.visited && kids[1].ptr !in st.visited
    ensures ScanKids(c, st, kids, depth) == Visit(Visit(st, kids[0].ptr), kids[1].ptr)
  {
    TwoKids(c, st, kids, depth);
    DataScan(c, st, kids[0], v, depth + 1);
    BoolScan(c, Visit(st, kids[0].ptr), kids[1], depth + 1);
  }

  lemma LastTwoPositions(c: Context, st: State, ptr: string, members: seq<Field>, k: nat, depth: nat)
    requires depth <= MAX_SCHEMA_DEPTH && k + 2 == |POSITIONS|
    ensures ScanPositions(c, st, ptr, members, k, depth)
         == ScanKids(c, ScanKids(c, st, Kids(ptr, members, k), depth), Kids(ptr, members, k + 1), depth)
  {
    var mid := ScanKids(c, st, Kids(ptr, members, k), depth);
    assert ScanPositions(c, st, ptr, members, k, depth) == ScanPositions(c, mid, ptr, members, k + 1, depth);
    var end := ScanKids(c, mid, Kids(ptr, members, k + 1), depth);
    assert ScanPositions(c, mid, ptr, members, k + 1, depth) == ScanPositions(c, end, ptr, members, k + 2, depth);
  }

  /** Two definitions, then a use of the second. */
  lemma DefineThenUse(c: Context, st: State, defs: seq<Kid>, use: Kid, v: Json, depth: nat)
    requires depth < MAX_SCHEMA_DEPTH && |st.findings| < MAX_FINDINGS && |defs| == 2 && defs[0].ptr != defs[1].ptr
    requires c.classOf == ClassOf && defs[0].node == Obj([Field("default", v)]) && defs[1].node.Bool?
    requires defs[0].ptr !in st.visited && defs[1].ptr !in st.visited
    requires use.ptr !in st.visited && use.ptr != defs[0].ptr && use.ptr != defs[1].ptr
    requires use.node == Obj([Field("$ref", Str(defs[1].ptr))]) && Resolve(c.root, defs[1].ptr).Some?
    ensures Scan(c, ScanKids(c, st, defs, depth), use, depth + 1).findings == st.findings
  {
    TwoDefinitions(c, st, defs, v, depth);
    RefScan(c, ScanKids(c, st, defs, depth), use, defs[1].ptr, depth + 1);
  }

  lemma ShadowPointers(name: string)
    ensures |Target(name)| > |"#/$defs/" + name| > 1
    ensures "#/definitions/z" != Target(name) && "#/definitions/z" != "#/$defs/" + name
  {
    assert "#/definitions/z"[2] == 'd' && Target(name)[2] == '$' && ("#/$defs/" + name)[2] == '$';
  }

  lemma ShadowKidsScan(c: Context, st: State, name: string, bad: Json, defs: seq<Kid>, uses: seq<Kid>, depth: nat)
    requires Plain(name) && c.classOf == ClassOf && c.root == Obj(Shadow(name, bad)) && depth < MAX_SCHEMA_DEPTH
    requires st == Visit(Start(), "#")
    requires defs == Kids("#", Shadow(name, bad), 6) && uses == Kids("#", Shadow(name, bad), 7)
    ensures ScanKids(c, ScanKids(c, st, defs, depth), uses, depth).findings == []
  {
    DefsKids(name, bad);
    UsesKids(name, bad);
    ShadowPointers(name);
    TargetResolves(name, bad);
    DefineThenUse(c, st, defs, uses[0], bad, depth);
    OneKid(c, ScanKids(c, st, defs, depth), uses, depth);
  }

  lemma ShadowPositions(c: Context, st: State, name: string, bad: Json, k: nat, depth: nat)
    requires Plain(name) && c.classOf == ClassOf && c.root == Obj(Shadow(name, bad)) && depth < MAX_SCHEMA_DEPTH
    requires st == Visit(Start(), "#") && k == 6
    ensures ScanPositions(c, st, "#", Shadow(name, bad), 0, depth).findings == []
  {
    var members := Shadow(name, bad);
    ShadowMembers(name, bad);
    SkipPositions(c, st, "#", members, 0, k, depth);
    LastTwoPositions(c, st, "#", members, k, depth);
    ShadowKidsScan(c, st, name, bad, Kids("#", members, k), Kids("#", members, k + 1), depth);
  }

  /** The scan of the whole document finds nothing. */
  lemma ShadowScan(c: Context, name: string, bad: Json)
    requires Plain(name) && c.classOf == ClassOf && c.root == Obj(Shadow(name, bad))
    ensures Findings(c) == []
  {
    ShadowFields(c, name, bad);
    ScanRoot(c, 0);
    ShadowPositions(c, Visit(Start(), "#"), name, bad, 6, 0);
  }

  lemma ShadowFields(c: Context, name: string, bad: Json)
    requires c.classOf == ClassOf
    ensures CleanFields(c, Shadow(name, bad))
  {
    assert ClassOf("$defs") == Table && ClassOf("definitions") == Table;
  }

  lemma ShadowPath(c: Context, name: string, bad: Json) returns (path: seq<Json>)
    requires Plain(name) && c.classOf == ClassOf && c.root == Obj(Shadow(name, bad))
    ensures IsPath(c, path) && path[|path| - 1] == bad
  {
    var user := Obj([Field("$ref", Str(Target(name)))]);
    StepToUser(c, name, bad);
    TargetResolves(name, bad);
    StepAlongRef(c, user, Target(name), bad);
    path := [c.root, user, bad];
  }

  lemma StepToUser(c: Context, name: string, bad: Json)
    requires c.root == Obj(Shadow(name, bad))
    ensures StepsTo(c, c.root, Obj([Field("$ref", Str(Target(name)))]))
  {
    var members, user := Shadow(name, bad), Obj([Field("$ref", Str(Target(name)))]);
    ShadowMembers(name, bad);
    assert SubschemasAt(members, 7)[0] == user;
    assert user in SubschemasAt(members, 7);
    NestsAtPosition(members, user);
  }

  lemma StepAlongRef(c: Context, user: Json, target: string, node: Json)
    requires c.classOf == ClassOf && user == Obj([Field("$ref", Str(target))]) && Resolve(c.root, target) == Some(node)
    ensures StepsTo(c, user, node)
  {
    RefIsRef(user.members[0]);
    assert IsRef(c, user.members[0], target, node);
  }

  /**
   A member name that percent-decodes shares its pointer with another node: the
   reference reaches the malformed data, but its key was taken by the boolean schema.
   */
  lemma EscapedNameHides(c: Context, name: string, bad: Json)
    requires Plain(name) && c.classOf == ClassOf && c.root == Obj(Shadow(name, bad)) && !LocalOk(c, bad)
    ensures Findings(c) == [] && exists path :: IsPath(c, path) && path[|path| - 1] == bad
  {
    ShadowScan(c, name, bad);
    var path := ShadowPath(c, name, bad);
  }
}
