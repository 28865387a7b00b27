/**
 JSON trees and the same-document `$ref` targets that name their nodes: a fragment
 `#` or `#/<pointer>`, percent-decoded once, with the `~0` and `~1` escapes of
 section 4 of RFC 6901.
 */
module JsonPointer {
  import opened Options
  import opened Text
  import opened Numerals
  import opened Percent

  /** A parsed document. A non-integer literal keeps only whether it is greater than zero. */
  datatype Json =
    | Null
    | Bool(b: bool)
    | Int(v: int)
    | Float(positive: bool)
    | Str(s: string)
    | Arr(elems: seq<Json>)
    | Obj(members: seq<Field>)

  datatype Field = Field(name: string, value: Json)

  // ---- Escapes ------------------------------------------------------------------------

  /** `str::replace` of one character by a string. */
  function Expand(s: string, c: char, to: string): string {
    if s == [] then [] else (if s[0] == c then to else [s[0]]) + Expand(s[1..], c, to)
  }

  /** `str::replace` of a two-character pattern by one character. */
  function Contract(s: string, a: char, b: char, to: char): string {
    if |s| < 2 then s
    else if s[0] == a && s[1] == b then [to] + Contract(s[2..], a, b, to)
    else [s[0]] + Contract(s[1..], a, b, to)
  }

  function PtrEscape(name: string): string { Expand(Expand(name, '~', "~0"), '/', "~1") }

  function PtrUnescape(segment: string): string { Contract(Contract(segment, '~', '1', '/'), '~', '0', '~') }

  lemma {:induction false} ExpandFront(front: string, s: string, c: char, to: string)
    ensures Expand(front + s, c, to) == Expand(front, c, to) + Expand(s, c, to)
  {
    if front == [] {
      assert front + s == s;
    } else {
      assert (front + s)[1..] == front[1..] + s;
      ExpandFront(front[1..], s, c, to);
    }
  }

  function EscapeChar(c: char): string { if c == '~' then "~0" else if c == '/' then "~1" else [c] }

  lemma PtrEscapeCons(name: string)
    requires name != []
    ensures PtrEscape(name) == EscapeChar(name[0]) + PtrEscape(name[1..])
  {
    var c, rest := name[0], Expand(name[1..], '~', "~0");
    var head := if c == '~' then "~0" else [c];
    ExpandFront(head, rest, '/', "~1");
    assert "~0"[1..] == "0" && "0"[1..] == "" && [c][1..] == "";
    assert Expand("~0", '/', "~1") == "~0";
  }

  /** Undoing `~1` first leaves a text whose only tildes are those of `~0`. */
  lemma {:induction false} ContractOnes(name: string)
    ensures Contract(PtrEscape(name), '~', '1', '/') == Expand(name, '~', "~0")
  {
    if name != [] {
      PtrEscapeCons(name);
      ContractOnes(name[1..]);
      ContractOne(name[0], PtrEscape(name[1..]));
    }
  }

  /** One escaped character, after `~1` has been undone. */
  lemma ContractOne(c: char, rest: string)
    ensures Contract(EscapeChar(c) + rest, '~', '1', '/')
              == (if c == '~' then "~0" else [c]) + Contract(rest, '~', '1', '/')
  {
    if c == '~' {
      assert ("~0" + rest)[1..] == "0" + rest;
      ContractPlain('0', rest, '1', '/');
    } else if c == '/' {
      assert ("~1" + rest)[2..] == rest;
    } else {
      ContractPlain(c, rest, '1', '/');
    }
  }

  lemma ContractPlain(c: char, rest: string, b: char, to: char)
    requires c != '~'
    ensures Contract([c] + rest, '~', b, to) == [c] + Contract(rest, '~', b, to)
  {
    assert ([c] + rest)[1..] == rest;
  }

  lemma {:induction false} ContractZeros(name: string)
    ensures Contract(Expand(name, '~', "~0"), '~', '0', '~') == name
  {
    if name != [] {
      ContractZeros(name[1..]);
      var c, rest := name[0], Expand(name[1..], '~', "~0");
      if c == '~' { assert ("~0" + rest)[2..] == rest; } else { ContractPlain(c, rest, '0', '~'); }
    }
  }

  /** Unescaping undoes escaping, and an escaped name is one segment. */
  lemma EscapeRoundTrip(name: string)
    ensures PtrUnescape(PtrEscape(name)) == name && '/' !in PtrEscape(name)
  {
    ContractOnes(name);
    ContractZeros(name);
    EscapeHasNoSlash(name);
  }

  lemma {:induction false} EscapeHasNoSlash(name: string)
    ensures '/' !in PtrEscape(name)
  {
    if name != [] {
      PtrEscapeCons(name);
      EscapeHasNoSlash(name[1..]);
    }
  }

  /** Escaping a name makes no percent escape that was not there. */
  lemma {:induction false} EscapeAddsNoPercent(name: string)
    requires !HasEscape(name)
    ensures !HasEscape(PtrEscape(name))
  {
    if name != [] {
      var tail := name[1..];
      assert forall i: nat :: EscapeAt(tail, i) == EscapeAt(name, i + 1);
      EscapeAddsNoPercent(tail);
      PtrEscapeCons(name);
      FrontFree(name);
      HeadFree(EscapeChar(name[0]), PtrEscape(tail));
    }
  }

  /** The escaped name starts no percent escape. */
  lemma FrontFree(name: string)
    requires name != [] && !EscapeAt(name, 0)
    ensures !EscapeAt(PtrEscape(name), 0)
  {
    var e := PtrEscape(name);
    PtrEscapeCons(name);
    if name[0] == '%' && |name| > 1 {
      PtrEscapeCons(name[1..]);
      assert e[1] == EscapeChar(name[1])[0];
      if IsHexChar(name[1]) && |name| > 2 {
        PtrEscapeCons(name[1..][1..]);
        assert e[2] == EscapeChar(name[2])[0];
      }
    }
  }

  lemma HeadFree(front: string, back: string)
    requires |front| == 1 || (|front| == 2 && front[1] != '%')
    requires !EscapeAt(front + back, 0) && !HasEscape(back)
    ensures !HasEscape(front + back)
  {
    var s := front + back;
    forall i: nat ensures !EscapeAt(s, i) {
      if i >= |front| {
        assert !EscapeAt(back, i - |front|);
        assert i + 2 < |s| ==> s[i] == back[i - |front|] && s[i + 1] == back[i + 1 - |front|]
                               && s[i + 2] == back[i + 2 - |front|];
      } else if i == 1 {
        assert s[1] == front[1];
      }
    }
  }

  // ---- Targets ------------------------------------------------------------------------------

  function Unescaped(parts: seq<string>): (r: seq<string>)
    ensures |r| == |parts| && forall i :: 0 <= i < |r| ==> r[i] == PtrUnescape(parts[i])
  {
    seq(|parts|, i requires 0 <= i < |parts| => PtrUnescape(parts[i]))
  }

  /** The member names and indices a target walks through, if it is a same-document pointer. */
  function Tokens(target: string): Option<seq<string>> {
    if target == "" || target[0] != '#' then None
    else if |target| == 1 then Some([])
    else if target[1] != '/' then None
    else Some(Unescaped(Split(DecodeOnce(target[2..]), '/')))
  }

  function Member(members: seq<Field>, name: string): Option<Json> {
    if members == [] then None
    else if members[0].name == name then Some(members[0].value)
    else Member(members[1..], name)
  }

  /** `usize::from_str`: an optional '+', then digits that fit 64 bits. */
  function ParseUsize(s: string): Option<nat> {
    var digits := if s != "" && s[0] == '+' then s[1..] else s;
    if digits == "" then None else FromStrRadix(digits, 10)
  }

  function Child(node: Json, token: string): Option<Json> {
    match node
    case Obj(members) => Member(members, token)
    case Arr(elems) =>
      (match ParseUsize(token)
       case Some(i) => if i < |elems| then Some(elems[i]) else None
       case None => None)
    case _ => None
  }

  function Walk(node: Json, tokens: seq<string>): Option<Json>
    decreases |tokens|
  {
    if tokens == [] then Some(node)
    else
      match Child(node, tokens[0])
      case None => None
      case Some(next) => Walk(next, tokens[1..])
  }

  /** The node a `$ref` target names. */
  function Resolve(root: Json, target: string): Option<Json> {
    match Tokens(target)
    case None => None
    case Some(tokens) => Walk(root, tokens)
  }

  method ResolveLocalRef(root: Json, target: string) returns (r: Option<Json>)
    ensures r == Resolve(root, target)
  {
    if target == "" || target[0] != '#' { return None; }
    if |target| == 1 { return Some(root); }
    if target[1] != '/' { return None; }
    var pointer := SchemaPercentDecode(target[2..]);
    var parts := Split(pointer, '/');
    ghost var tokens := Unescaped(parts);
    var node := root;
    for i := 0 to |parts|
      invariant Walk(root, tokens) == Walk(node, tokens[i..])
    {
      assert tokens[i..][0] == tokens[i] && tokens[i..][1..] == tokens[i + 1..];
      match Child(node, PtrUnescape(parts[i])) {
        case None => return None;
        case Some(next) => node := next;
      }
    }
    assert tokens[|parts|..] == [];
    r := Some(node);
  }

  lemma {:induction false} WalkOn(node: Json, tokens: seq<string>, last: string)
    ensures Walk(node, tokens + [last]) == match Walk(node, tokens) case None => None case Some(n) => Child(n, last)
    decreases |tokens|
  {
    var all := tokens + [last];
    if tokens == [] {
      assert all == [last] && all[1..] == [];
    } else {
      assert all[0] == tokens[0] && all[1..] == tokens[1..] + [last];
      if Child(node, tokens[0]).Some? { WalkOn(Child(node, tokens[0]).value, tokens[1..], last); }
    }
  }

  lemma TokensOn(target: string, key: string)
    requires Tokens(target).Some? && '/' !in key && !HasEscape(key)
    ensures Tokens(target + "/" + key) == Some(Tokens(target).value + [PtrUnescape(key)])
  {
    var longer := target + "/" + key;
    DecodeFixed(key);
    SplitNone(key, '/');
    if |target| == 1 {
      assert longer[2..] == key;
      assert Unescaped([key]) == [PtrUnescape(key)] == [] + [PtrUnescape(key)];
    } else {
      var body := target[2..];
      assert longer[2..] == body + "/" + key;
      DecodeSlash(body, key);
      SplitAppend(DecodeOnce(body), key, '/');
      var parts := Split(DecodeOnce(body), '/');
      assert Unescaped(parts + [key]) == Unescaped(parts) + [PtrUnescape(key)];
    }
  }

  /** Appending one segment to a target steps to the named child. */
  lemma ResolveOn(root: Json, target: string, key: string)
    requires Resolve(root, target).Some? && '/' !in key && !HasEscape(key)
    ensures Resolve(root, target + "/" + key) == Child(Resolve(root, target).value, PtrUnescape(key))
  {
    TokensOn(target, key);
    WalkOn(root, Tokens(target).value, PtrUnescape(key));
  }

  lemma {:induction false} DecimalPlain(n: nat)
    ensures forall i :: 0 <= i < |Decimal(n)| ==> '0' <= Decimal(n)[i] <= '9'
  {
    if n >= 10 { DecimalPlain(n / 10); }
  }

  lemma {:induction false} UnescapePlain(s: string)
    requires '~' !in s
    ensures PtrUnescape(s) == s
  {
    ContractNothing(s, '1', '/');
    ContractNothing(s, '0', '~');
  }

  lemma {:induction false} ContractNothing(s: string, b: char, to: char)
    requires '~' !in s
    ensures Contract(s, '~', b, to) == s
  {
    if |s| >= 2 {
      assert s[0] in s;
      ContractNothing(s[1..], b, to);
    }
  }

  /** A key without '%', '~' and '/' stands for itself. */
  lemma ResolvePlain(root: Json, target: string, key: string)
    requires Resolve(root, target).Some? && '/' !in key && '%' !in key && '~' !in key
    ensures Resolve(root, target + "/" + key) == Child(Resolve(root, target).value, key)
  {
    forall i: nat ensures !EscapeAt(key, i) { if i < |key| { assert key[i] in key; } }
    UnescapePlain(key);
    ResolveOn(root, target, key);
  }

  /** An index is printed so that it parses back. */
  lemma ResolveIndex(root: Json, target: string, i: nat)
    requires Resolve(root, target).Some? && Resolve(root, target).value.Arr?
    requires i < |Resolve(root, target).value.elems| <= U64
    ensures Resolve(root, target + "/" + Decimal(i)) == Some(Resolve(root, target).value.elems[i])
  {
    var d := Decimal(i);
    DecimalPlain(i);
    DecimalValue(i);
    assert '/' !in d && '%' !in d && '~' !in d && d[0] != '+';
    ResolvePlain(root, target, d);
  }
}
