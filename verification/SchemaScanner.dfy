/** The schema scan as it runs: findings and visited pointers updated in place. */
module SchemaScanner {
  import opened JsonPointer
  import opened SchemaScan

  lemma {:induction false} PushAllAppend(st: State, a: seq<Finding>, b: seq<Finding>)
    ensures PushAll(st, a + b) == PushAll(PushAll(st, a), b)
    decreases |a|
  {
    if a == [] {
      assert a + b == b;
    } else {
      assert (a + b)[1..] == a[1..] + b;
      PushAllAppend(Push(st, a[0]), a[1..], b);
    }
  }

  class Scanner {
    const c: Context
    var findings: seq<Finding>
    var visited: set<string>

    function View(): State
      reads this
    {
      State(findings, visited)
    }

    constructor (c: Context)
      ensures this.c == c && View() == Start()
    {
      this.c := c;
      findings := [];
      visited := {};
    }

    method PushFinding(ptr: string, reason: Reason)
      modifies this
      ensures View() == Push(old(View()), Finding(ptr, reason))
    {
      if |findings| < MAX_FINDINGS {
        findings := findings + [Finding(ptr, reason)];
      }
    }

    /** The elements that are no strings, reported one by one. */
    method ReportNonStrings(ptr: string, elems: seq<Json>)
      modifies this
      ensures View() == PushAll(old(View()), NonStrings(ptr, elems))
    {
      ghost var all := NonStrings(ptr, elems);
      assert elems[0..] == elems;
      for i := 0 to |elems|
        invariant PushAll(old(View()), all) == PushAll(View(), NonStrings(ptr, elems[i..]))
      {
        assert elems[i..][0] == elems[i] && elems[i..][1..] == elems[i + 1..];
        if !elems[i].Str? {
          assert NonStrings(ptr, elems[i..])[1..] == NonStrings(ptr, elems[i + 1..]);
          PushFinding(ptr, NonStringType);
        } else {
          assert NonStrings(ptr, elems[i..]) == NonStrings(ptr, elems[i + 1..]);
        }
      }
      assert elems[|elems|..] == [];
    }

    method ReportUnknown(ptr: string, elems: seq<Json>)
      modifies this
      ensures View() == PushAll(old(View()), Unknowns(ptr, elems))
    {
      ghost var all := Unknowns(ptr, elems);
      assert elems[0..] == elems;
      for i := 0 to |elems|
        invariant PushAll(old(View()), all) == PushAll(View(), Unknowns(ptr, elems[i..]))
      {
        assert elems[i..][0] == elems[i] && elems[i..][1..] == elems[i + 1..];
        if elems[i].Str? && elems[i].s !in VALID_TYPES {
          assert Unknowns(ptr, elems[i..])[1..] == Unknowns(ptr, elems[i + 1..]);
          PushFinding(ptr, UnknownType(elems[i].s));
        } else {
          assert Unknowns(ptr, elems[i..]) == Unknowns(ptr, elems[i + 1..]);
        }
      }
      assert elems[|elems|..] == [];
    }

    method CheckType(ptr: string, f: Field)
      requires c.classOf(f.name) == TypeNames
      modifies this
      ensures View() == PushAll(old(View()), Faults(c, ptr, f))
    {
      match f.value {
        case Str(_) => ReportUnknown(ptr, [f.value]);
        case Arr(elems) =>
          ghost var empty := if elems == [] then [Finding(ptr, EmptyType)] else [];
          PushAllAppend(View(), empty + NonStrings(ptr, elems), Unknowns(ptr, elems));
          PushAllAppend(View(), empty, NonStrings(ptr, elems));
          if elems == [] { PushFinding(ptr, EmptyType); }
          ReportNonStrings(ptr, elems);
          ReportUnknown(ptr, elems);
        case _ => PushFinding(ptr, Malformed(f.name));
      }
    }

    method CheckKeywordShape(ptr: string, f: Field, depth: nat)
      requires depth <= MAX_SCHEMA_DEPTH && c.classOf(f.name) != Unknown
      modifies this
      ensures View() == CheckMember(c, old(View()), ptr, f, depth)
      decreases MAX_SCHEMA_DEPTH + 1 - depth, 0
    {
      var class_ := c.classOf(f.name);
      if class_ == TypeNames {
        CheckType(ptr, f);
      } else if !ShapeOk(c, class_, f.value) {
        PushFinding(ptr, Malformed(f.name));
      } else if class_ == Ref {
        var node := ResolveLocalRef(c.root, f.value.s);
        ScanSchema(node.value, f.value.s, depth + 1);
      }
    }

    method ScanMemberList(ptr: string, members: seq<Field>, depth: nat)
      requires depth <= MAX_SCHEMA_DEPTH
      modifies this
      ensures View() == ScanMembers(c, old(View()), ptr, members, depth)
      decreases MAX_SCHEMA_DEPTH + 1 - depth, 1
    {
      assert members[0..] == members;
      for i := 0 to |members|
        invariant ScanMembers(c, old(View()), ptr, members, depth) == ScanMembers(c, View(), ptr, members[i..], depth)
      {
        assert members[i..][0] == members[i] && members[i..][1..] == members[i + 1..];
        if c.classOf(members[i].name) == Unknown {
          PushFinding(ptr, Unsupported(members[i].name));
        } else {
          CheckKeywordShape(ptr, members[i], depth);
        }
      }
      assert members[|members|..] == [];
    }

    method ScanKidList(kids: seq<Kid>, depth: nat)
      requires depth <= MAX_SCHEMA_DEPTH
      modifies this
      ensures View() == ScanKids(c, old(View()), kids, depth)
      decreases MAX_SCHEMA_DEPTH + 1 - depth, 1
    {
      assert kids[0..] == kids;
      for i := 0 to |kids|
        invariant ScanKids(c, old(View()), kids, depth) == ScanKids(c, View(), kids[i..], depth)
      {
        assert kids[i..][0] == kids[i] && kids[i..][1..] == kids[i + 1..];
        ScanSchema(kids[i].node, kids[i].ptr, depth + 1);
      }
      assert kids[|kids|..] == [];
    }

    method ScanSchema(node: Json, ptr: string, depth: nat)
      requires depth <= MAX_SCHEMA_DEPTH + 1
      modifies this
      ensures View() == Scan(c, old(View()), Kid(ptr, node), depth)
      decreases MAX_SCHEMA_DEPTH + 1 - depth, 3
    {
      if |findings| >= MAX_FINDINGS || ptr in visited { return; }
      visited := visited + {ptr};
      if depth > MAX_SCHEMA_DEPTH {
        PushFinding(ptr, TooDeep);
        return;
      }
      match node {
        case Bool(_) =>
        case Obj(members) =>
          ScanMemberList(ptr, members, depth);
          ghost var mid := View();
          for k := 0 to |POSITIONS|
            invariant ScanPositions(c, mid, ptr, members, 0, depth) == ScanPositions(c, View(), ptr, members, k, depth)
          {
            ScanKidList(Kids(ptr, members, k), depth);
          }
        case _ => PushFinding(ptr, NotASchema);
      }
    }
  }

  /**
   The whole scan: at most sixteen findings, each with a cause; none at all means
   every reachable node is well formed.
   */
  method UnsupportedSchemaFindings(root: Json, regexOk: string -> bool) returns (findings: seq<Finding>)
    ensures var c := Context(root, regexOk, ClassOf);
            && findings == Findings(c) && |findings| <= MAX_FINDINGS && AllBlamed(c, findings)
            && (findings == [] && Fair(c) ==> forall path :: IsPath(c, path) ==> LocalOk(c, path[|path| - 1]))
  {
    var c := Context(root, regexOk, ClassOf);
    var scanner := new Scanner(c);
    scanner.ScanSchema(root, "#", 0);
    findings := scanner.findings;
    FindingsHaveCauses(c);
    if findings == [] && Fair(c) {
      forall path | IsPath(c, path) ensures LocalOk(c, path[|path| - 1]) { EmptyScanIsSound(c, path); }
    }
  }
}
