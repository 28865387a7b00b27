/**
 Filesystem-argument normalization on the Unix build: bounded decoding, NFKC, and
 the `file:` URI route, in the frozen form and in the form that skips work.
 NFKC and the IPv6 loopback test come in as parameters.
 */
module FsArgument {
  import opened Options
  import opened Bytes
  import opened Utf8
  import opened Text
  import opened Percent
  import opened BoundedDecode
  import Ipv4

  datatype Env = Env(nfkc: string -> string, v6Loopback: string -> bool)

  /** All that is asked of NFKC. */
  ghost predicate NfkcOk(e: Env) { forall s :: IsAscii(s) ==> e.nfkc(s) == s }

  // ---- Lexical path normalization --------------------------------------------------

  /** Path components other than the root: empty and `.` segments vanish. */
  function Segments(path: string): seq<string> { Proper(Split(path, '/')) }

  function Proper(parts: seq<string>): (r: seq<string>)
    ensures forall i :: 0 <= i < |r| ==> r[i] in parts && r[i] != "" && r[i] != "."
  {
    if parts == [] then []
    else if parts[0] == "" || parts[0] == "." then Proper(parts[1..])
    else [parts[0]] + Proper(parts[1..])
  }

  /** One component: `..` pops whatever is last, stays at the root, and is kept only at an empty relative path. */
  function Apply(out: seq<string>, seg: string, rooted: bool): seq<string> {
    if seg != ".." then out + [seg]
    else if out != [] then out[..|out| - 1]
    else if rooted then [] else [".."]
  }

  function Resolve(segs: seq<string>, rooted: bool): seq<string> {
    if segs == [] then [] else Apply(Resolve(segs[..|segs| - 1], rooted), segs[|segs| - 1], rooted)
  }

  predicate Rooted(path: string) { path != "" && path[0] == '/' }

  function Render(out: seq<string>, rooted: bool): string {
    if rooted then "/" + Join(out, '/') else if out == [] then "." else Join(out, '/')
  }

  function Lexical(path: string): string { Render(Resolve(Segments(path), Rooted(path)), Rooted(path)) }

  method LexicalNormalize(path: string) returns (r: string)
    ensures r == Lexical(path)
  {
    var segs, rooted := Segments(path), Rooted(path);
    var out: seq<string> := [];
    for i := 0 to |segs|
      invariant out == Resolve(segs[..i], rooted)
    {
      ResolveStep(segs, i, rooted);
      if segs[i] == ".." {
        if out != [] {
          out := out[..|out| - 1];
        } else if !rooted {
          out := out + [".."];
        }
      } else {
        out := out + [segs[i]];
      }
    }
    assert segs[..|segs|] == segs;
    r := Render(out, rooted);
  }

  lemma ResolveStep(segs: seq<string>, i: nat, rooted: bool)
    requires i < |segs|
    ensures Resolve(segs[..i + 1], rooted) == Apply(Resolve(segs[..i], rooted), segs[i], rooted)
  {
    assert segs[..i + 1][..i] == segs[..i];
  }

  /** A bare name is its own normal form. */
  lemma LexicalBare(s: string)
    requires s != "" && '/' !in s && '.' !in s
    ensures Lexical(s) == s && Segments(s) == [s]
  {
    SplitNone(s, '/');
    assert s != ".";
    assert [s][1..] == [] && Proper([s]) == [s];
    assert Resolve([], false) == [] && [s][..0] == [];
    assert Resolve([s], false) == [s] by { assert s[0] != '.'; }
  }

  lemma {:induction false} ProperAppend(a: seq<string>, b: seq<string>)
    ensures Proper(a + b) == Proper(a) + Proper(b)
  {
    if a == [] {
      assert a + b == b;
    } else {
      assert (a + b)[1..] == a[1..] + b;
      ProperAppend(a[1..], b);
    }
  }

  lemma {:induction false} ProperKeeps(parts: seq<string>)
    requires forall i :: 0 <= i < |parts| ==> parts[i] != "" && parts[i] != "."
    ensures Proper(parts) == parts
  {
    if parts != [] { ProperKeeps(parts[1..]); }
  }

  lemma SegmentsAppend(front: string, back: string)
    ensures Segments(front + "/" + back) == Segments(front) + Segments(back)
  {
    SplitAppend(front, back, '/');
    ProperAppend(Split(front, '/'), Split(back, '/'));
  }

  lemma {:induction false} ResolveInside(segs: seq<string>, rooted: bool)
    ensures forall i :: 0 <= i < |Resolve(segs, rooted)| ==>
                          var r := Resolve(segs, rooted)[i]; (r in segs && r != "..") || (!rooted && r == "..")
  {
    if segs != [] { ResolveInside(segs[..|segs| - 1], rooted); }
  }

  /** The components of the normal form are the resolved components. */
  lemma SegmentsLexical(path: string)
    ensures Segments(Lexical(path)) == Resolve(Segments(path), Rooted(path))
  {
    var out := Resolve(Segments(path), Rooted(path));
    ResolveInside(Segments(path), Rooted(path));
    SplitPieces(path, '/');
    RenderSegments(out, Rooted(path));
  }

  /** Rendered components split back into themselves. */
  lemma RenderSegments(out: seq<string>, rooted: bool)
    requires forall i :: 0 <= i < |out| ==> '/' !in out[i] && out[i] != "" && out[i] != "."
    ensures Segments(Render(out, rooted)) == out
  {
    if out == [] {
      RenderNothing(rooted);
    } else {
      SplitJoin(out, '/');
      ProperKeeps(out);
      if rooted { RootSegments(Join(out, '/')); }
    }
  }

  lemma RenderNothing(rooted: bool)
    ensures Segments(Render([], rooted)) == []
  {
    if rooted {
      SplitNone("", '/');
      assert Proper([""]) == [] by { assert [""][1..] == []; }
      RootSegments("");
      assert "/" + Join([], '/') == "/" + "";
    } else {
      SplitNone(".", '/');
      assert Proper(["."]) == [] by { assert ["."][1..] == []; }
    }
  }

  /** A leading '/' adds no component. */
  lemma RootSegments(s: string)
    ensures Segments("/" + s) == Segments(s)
  {
    assert "" + "/" + s == "/" + s;
    SplitCons("", s, '/');
    assert ([""] + Split(s, '/'))[1..] == Split(s, '/');
  }

  lemma {:induction false} ResolveFixed(segs: seq<string>, rooted: bool)
    requires ".." !in segs
    ensures Resolve(segs, rooted) == segs
  {
    if segs != [] { ResolveFixed(segs[..|segs| - 1], rooted); }
  }

  /** An absolute path's normal form holds no `..` and is normal already. */
  lemma LexicalIdempotent(path: string)
    requires Rooted(path)
    ensures Rooted(Lexical(path)) && ".." !in Segments(Lexical(path)) && Lexical(Lexical(path)) == Lexical(path)
  {
    SegmentsLexical(path);
    ResolveInside(Segments(path), true);
    ResolveFixed(Resolve(Segments(path), true), true);
  }

  /** What follows sees only what its front resolves to. */
  lemma {:induction false} ResolveThrough(
    a: seq<string>, b: seq<string>, c: seq<string>, x: seq<string>, y: seq<string>, rooted: bool)
    requires Resolve(a, rooted) == Resolve(b, rooted) && x == a + c && y == b + c
    ensures Resolve(x, rooted) == Resolve(y, rooted)
    decreases |c|
  {
    if c == [] {
      assert x == a && y == b;
    } else {
      var a', b' := a + [c[0]], b + [c[0]];
      ResolveSnoc(a, c[0], rooted);
      ResolveSnoc(b, c[0], rooted);
      MoveAcross(a, c, x);
      MoveAcross(b, c, y);
      ResolveThrough(a', b', c[1..], x, y, rooted);
    }
  }

  lemma ResolveSnoc(segs: seq<string>, seg: string, rooted: bool)
    ensures Resolve(segs + [seg], rooted) == Apply(Resolve(segs, rooted), seg, rooted)
  {
    assert (segs + [seg])[..|segs|] == segs;
  }

  /** A `..` takes back exactly the component before it. */
  lemma ParentCancels(a: seq<string>, name: string, b: seq<string>, rooted: bool)
    requires name != ".."
    ensures Resolve(a + [name, ".."] + b, rooted) == Resolve(a + b, rooted)
  {
    var x := a + [name, ".."];
    assert x[..|a| + 1] == a + [name] && (a + [name])[..|a|] == a;
    assert Resolve(x, rooted) == Resolve(a, rooted);
    ResolveThrough(x, a, b, x + b, a + b, rooted);
  }

  /** At the root it does nothing. */
  lemma ParentOfRoot(b: seq<string>)
    ensures Resolve([".."] + b, true) == Resolve(b, true)
  {
    assert [".."][..0] == [];
    assert Resolve([".."], true) == Resolve([], true) == [];
    assert [] + b == b;
    ResolveThrough([".."], [], b, [".."] + b, b, true);
  }

  /** The same on the text of an absolute path: with these, every absolute path folds to one without `..`. */
  lemma ParentFolds(front: string, name: string, back: string)
    requires Rooted(front) && name != "" && name != "." && name != ".." && '/' !in name
    ensures Lexical(front + "/" + name + "/" + ".." + "/" + back) == Lexical(front + "/" + back)
  {
    var long := front + "/" + name + "/" + ".." + "/" + back;
    SegmentsAppend(front + "/" + name + "/" + "..", back);
    SegmentsAppend(front + "/" + name, "..");
    SegmentsAppend(front, name);
    SegmentsAppend(front, back);
    OneSegment(name);
    OneSegment("..");
    assert Segments(long) == Segments(front) + [name, ".."] + Segments(back);
    ParentCancels(Segments(front), name, Segments(back), true);
  }

  lemma OneSegment(name: string)
    requires name != "" && name != "." && '/' !in name
    ensures Segments(name) == [name]
  {
    SplitNone(name, '/');
    assert [name][1..] == [] && Proper([name]) == [name];
  }

  /** What a relative path means: a kept `..` is never popped. */
  function Climb(segs: seq<string>): seq<string> {
    if segs == [] then []
    else
      var out, seg := Climb(segs[..|segs| - 1]), segs[|segs| - 1];
      if seg == ".." && out != [] && out[|out| - 1] != ".." then out[..|out| - 1] else out + [seg]
  }

  /** The path climbs at least two levels above where it starts. */
  predicate ClimbsTwo(out: seq<string>) { |out| >= 2 && out[1] == ".." }

  lemma {:induction false} ClimbShape(segs: seq<string>)
    ensures forall i, j :: 0 <= i < j < |Climb(segs)| && Climb(segs)[j] == ".." ==> Climb(segs)[i] == ".."
  {
    if segs != [] { ClimbShape(segs[..|segs| - 1]); }
  }

  lemma {:induction false} OneUpAtMost(segs: seq<string>)
    ensures !ClimbsTwo(Resolve(segs, false))
    ensures forall i :: 1 <= i < |Resolve(segs, false)| ==> Resolve(segs, false)[i] != ".."
  {
    if segs != [] { OneUpAtMost(segs[..|segs| - 1]); }
  }

  lemma {:induction false} OneUpAgrees(segs: seq<string>)
    requires !ClimbsTwo(Climb(segs))
    ensures Resolve(segs, false) == Climb(segs)
  {
    if segs != [] {
      ClimbShape(segs[..|segs| - 1]);
      OneUpAgrees(segs[..|segs| - 1]);
    }
  }

  /**
   A relative path keeps its meaning exactly when it climbs at most one level: a second
   leading `..` pops the one that was kept, and both disappear.
   */
  lemma RelativeExact(segs: seq<string>)
    ensures Resolve(segs, false) == Climb(segs) <==> !ClimbsTwo(Climb(segs))
  {
    OneUpAtMost(segs);
    if !ClimbsTwo(Climb(segs)) { OneUpAgrees(segs); }
  }

  lemma TwoUpsVanish(name: string)
    requires name != ".."
    ensures Resolve(["..", "..", name], false) == [name] && Climb(["..", "..", name]) == ["..", "..", name]
  {
    var segs := ["..", "..", name];
    assert segs[..2] == ["..", ".."] && segs[..2][..1] == [".."] && segs[..2][..1][..0] == [];
    assert Resolve([".."], false) == [".."] && Resolve(["..", ".."], false) == [];
    assert Climb([".."]) == [".."] && Climb(["..", ".."]) == ["..", ".."];
  }

  // ---- Scheme sniffing ----------------------------------------------------------------

  predicate StartsWithFileScheme(v: string) {
    |v| >= 5 && (v[0] == 'f' || v[0] == 'F') && (v[1] == 'i' || v[1] == 'I') && (v[2] == 'l' || v[2] == 'L')
    && (v[3] == 'e' || v[3] == 'E') && v[4] == ':'
  }

  predicate IsFormatNoise(c: char) {
    var u := c as int;
    || u == 0xAD || u == 0x34F || u == 0x61C || u == 0x180E || 0x200B <= u <= 0x200F || 0x202A <= u <= 0x202E
    || 0x2060 <= u <= 0x2064 || 0x2066 <= u <= 0x206F || u == 0xFEFF || u == 0xE0001 || 0xE0020 <= u <= 0xE007F
  }

  predicate Compacted(c: char) { IsSplittingControl(c) || IsFormatNoise(c) || IsWhitespace(c) }

  function Compact(s: string): (r: string)
    ensures forall i :: 0 <= i < |r| ==> r[i] in s
  {
    if s == [] then [] else if Compacted(s[0]) then Compact(s[1..]) else [s[0]] + Compact(s[1..])
  }

  function StripQueryFragment(s: string): string { s[..Min(Find(s, '?'), Find(s, '#'))] }

  predicate IsLetter(c: char) { 'a' <= c <= 'z' || 'A' <= c <= 'Z' }

  predicate LooksLikeWindowsAbs(v: string) {
    |v| >= 3 && IsLetter(v[0]) && v[1] == ':' && (v[2] == '\\' || v[2] == '/')
  }

  function TrimDots(s: string): string { if s != "" && s[|s| - 1] == '.' then TrimDots(s[..|s| - 1]) else s }

  predicate IsLoopback(addr: nat) { addr / 0x100_0000 == 127 }

  predicate IsLocalAuthority(a: string, e: Env) {
    if |a| >= 2 && a[0] == '[' && a[|a| - 1] == ']' then e.v6Loopback(a[1..|a| - 1])
    else
      var lower := TrimDots(Lower(a));
      lower == "localhost" || (Ipv4.Parse(lower).Some? && IsLoopback(Ipv4.Parse(lower).value))
  }

  function FileUriToFsPath(uri: string, e: Env): Option<string> {
    var t := Trim(uri);
    if !StartsWithFileScheme(t) then None
    else
      var rest := Replace(StripQueryFragment(t[5..]), '\\', '/');
      if StartsWith(rest, "//") then AuthorityPath(rest[2..], e)
      else if StartsWith(rest, "/") || LooksLikeWindowsAbs(rest) then Some(rest)
      else if rest == "" then None
      else Some(Lexical("/" + rest))
  }

  /** What follows `//`: a local authority, possibly empty, then a path that is no UNC form. */
  function AuthorityPath(after: string, e: Env): Option<string> {
    if StartsWith(after, "/") then if StartsWith(after, "//") then None else Some(after)
    else
      var slash := Find(after, '/');
      if !IsLocalAuthority(after[..slash], e) then None
      else
        var path := StripQueryFragment(after[slash..]);
        if path == "" || StartsWith(path, "//") then None else Some(path)
  }

  // ---- The two forms of normalization -----------------------------------------------------

  function OrElse(a: Option<string>, b: Option<string>): Option<string> { if a.Some? then a else b }

  /** The frozen form: NFKC always runs, the compacted copy is always built. */
  function Reference(raw: string, e: Env): Decoded {
    if raw == "" then Err(NulPath)
    else
      match Bounded(raw)
      case Err(f) => Err(f)
      case Ok(d) =>
        var decoded := e.nfkc(d);
        var compacted := Compact(decoded);
        match OrElse(FileUriToFsPath(decoded, e), FileUriToFsPath(compacted, e))
        case Some(p) =>
          (match Bounded(p)
           case Err(f) => Err(f)
           case Ok(b) => Ok(e.nfkc(b)))
        case None =>
          if StartsWithFileScheme(decoded) || StartsWithFileScheme(compacted) then Err(NotLocal) else Ok(decoded)
  }

  /** NFKC skipped on ASCII. */
  function Nfkc(s: string, e: Env): string { if IsAscii(s) then s else e.nfkc(s) }

  /** The current form: ASCII skips NFKC, and only a text with a ':' is compacted. */
  function Normalize(raw: string, e: Env): Decoded {
    if raw == "" then Err(NulPath)
    else
      match Bounded(raw)
      case Err(f) => Err(f)
      case Ok(d) =>
        var decoded := Nfkc(d, e);
        var compacted := if ':' in decoded then Some(Compact(decoded)) else None;
        match OrElse(FileUriToFsPath(decoded, e), if compacted.Some? then FileUriToFsPath(compacted.value, e) else None)
        case Some(p) =>
          (match Bounded(p)
           case Err(f) => Err(f)
           case Ok(b) => Ok(Nfkc(b, e)))
        case None =>
          if StartsWithFileScheme(decoded) || (compacted.Some? && StartsWithFileScheme(compacted.value))
          then Err(NotLocal) else Ok(decoded)
  }

  lemma {:induction false} TrimInside(s: string)
    ensures forall i :: 0 <= i < |Trim(s)| ==> Trim(s)[i] in s
  {
    StartInside(s);
    EndInside(TrimStart(s));
  }

  lemma {:induction false} StartInside(s: string)
    ensures forall i :: 0 <= i < |TrimStart(s)| ==> TrimStart(s)[i] in s
  {
    if s != [] && IsWhitespace(s[0]) { StartInside(s[1..]); }
  }

  lemma {:induction false} EndInside(s: string)
    ensures forall i :: 0 <= i < |TrimEnd(s)| ==> TrimEnd(s)[i] in s
    ensures TrimEnd(s) <= s
  {
    if s != [] && IsWhitespace(s[|s| - 1]) { EndInside(s[..|s| - 1]); }
  }

  /** Without a ':' there is no scheme to find, compacted or not. */
  lemma NoColonNoScheme(s: string, e: Env)
    requires ':' !in s
    ensures !StartsWithFileScheme(s) && FileUriToFsPath(s, e) == None
  {
    TrimInside(s);
  }

  /** The current form gives the frozen form's answer on every argument. */
  lemma NormalizeAgrees(raw: string, e: Env)
    requires NfkcOk(e)
    ensures Normalize(raw, e) == Reference(raw, e)
  {
    if raw != "" && Bounded(raw).Ok? {
      var decoded := e.nfkc(Bounded(raw).text);
      if ':' !in decoded { NoColonNoScheme(Compact(decoded), e); }
    }
  }

  // ---- Two more predicates kept in both forms ----------------------------------------------

  function FindSlot(s: string): (n: nat)
    ensures n <= |s|
  {
    if |s| < 3 then |s| else if s[..3] == "://" then 0 else 1 + FindSlot(s[1..])
  }

  /** The text holds "://". */
  predicate HasSlot(s: string) { FindSlot(s) + 3 <= |s| && s[FindSlot(s)..FindSlot(s) + 3] == "://" }

  predicate IsAsciiUriScheme(s: string) {
    s != "" && IsLetter(s[0])
    && forall i :: 1 <= i < |s| ==> IsLetter(s[i]) || '0' <= s[i] <= '9' || s[i] == '+' || s[i] == '-' || s[i] == '.'
  }

  predicate SlotIsDirty(decoded: string) {
    var compacted := Compact(decoded);
    if HasSlot(compacted) then !IsAsciiUriScheme(compacted[..FindSlot(compacted)])
    else HasSlot(decoded) && !IsAsciiUriScheme(decoded[..FindSlot(decoded)])
  }

  predicate UriSchemeSlotIsDirty(raw: string, e: Env) {
    match Bounded(raw)
    case Err(_) => true
    case Ok(d) => SlotIsDirty(Nfkc(d, e))
  }

  predicate ReferenceSlotIsDirty(raw: string, e: Env) {
    match Bounded(raw)
    case Err(_) => true
    case Ok(d) => SlotIsDirty(e.nfkc(d))
  }

  /** A candidate's verdict: None passes on to the next candidate. */
  function OpaqueVerdict(candidate: string): Option<bool> {
    if !StartsWithFileScheme(candidate) then None
    else
      var rest := Replace(StripQueryFragment(candidate[5..]), '\\', '/');
      if StartsWith(rest, "/") || LooksLikeWindowsAbs(rest) then Some(false)
      else if rest != "" then Some(true) else None
  }

  predicate OpaqueEither(decoded: string) {
    match OpaqueVerdict(decoded)
    case Some(v) => v
    case None => OpaqueVerdict(Compact(decoded)) == Some(true)
  }

  predicate IsOpaqueFileUri(raw: string, e: Env) {
    match Bounded(raw)
    case Err(_) => false
    case Ok(d) => OpaqueEither(Nfkc(d, e))
  }

  predicate ReferenceIsOpaque(raw: string, e: Env) {
    match Bounded(raw)
    case Err(_) => false
    case Ok(d) => OpaqueEither(e.nfkc(d))
  }

  // ---- Idempotence -----------------------------------------------------------------------------

  function FsPath(decoded: string, e: Env): Option<string> {
    OrElse(FileUriToFsPath(decoded, e), FileUriToFsPath(Compact(decoded), e))
  }

  /** Every decoded intermediate of this argument is ASCII. */
  predicate AsciiRoute(raw: string, e: Env) {
    Bounded(raw).Ok? && IsAscii(Bounded(raw).text)
    && match FsPath(Bounded(raw).text, e)
       case Some(p) => Bounded(p).Ok? && IsAscii(Bounded(p).text)
       case None => true
  }

  /** A character no decoding round touches when it stands at the front. */
  predicate Quiet(c: char) { c != '%' && !IsSplittingControl(c) }

  predicate AllQuiet(p: string) { forall i :: 0 <= i < |p| ==> Quiet(p[i]) }

  lemma {:induction false} NextPrefix(p: string, s: string)
    requires p <= s && AllQuiet(p)
    ensures p <= Next(s) && p <= Strip(s)
  {
    if p != [] {
      assert s[0] == p[0] && Quiet(p[0]);
      DecodeHead(s);
      var d := DecodeOnce(s);
      assert d[1..] == DecodeOnce(s[1..]);
      NextPrefix(p[1..], s[1..]);
    }
  }

  lemma {:induction false} RoundsPrefix(p: string, s: string, n: nat)
    requires p <= s && AllQuiet(p)
    requires Rounds(s, n).Ok?
    ensures p <= Rounds(s, n).text
    decreases n
  {
    NextPrefix(p, s);
    if Next(s) != s && n > 0 { RoundsPrefix(p, Next(s), n - 1); }
  }

  lemma BoundedPrefix(p: string, s: string)
    requires p <= s && AllQuiet(p)
    requires Bounded(s).Ok?
    ensures p <= Bounded(s).text
  {
    NextPrefix(p, s);
    var n := PERCENT_DECODE_MAX_ROUNDS;
    assert Bounded(s) == Rounds(Strip(s), n);
    RoundsPrefix(p, Strip(s), n);
  }

  /** The front of a path: its root, or its drive. */
  predicate PathFront(p: string) { p == "/" || (|p| == 2 && IsLetter(p[0]) && p[1] == ':') }

  lemma FileUriFront(uri: string, e: Env)
    requires FileUriToFsPath(uri, e).Some?
    ensures exists p :: PathFront(p) && p <= FileUriToFsPath(uri, e).value
  {
    var r := FileUriToFsPath(uri, e).value;
    assert StartsWith(r, "/") || LooksLikeWindowsAbs(r) by {
      var t := Trim(uri);
      var rest := Replace(StripQueryFragment(t[5..]), '\\', '/');
      if StartsWith(rest, "//") {
        AuthorityFront(rest[2..], e);
      } else if !StartsWith(rest, "/") && !LooksLikeWindowsAbs(rest) {
        assert Rooted("/" + rest);
      }
    }
    if StartsWith(r, "/") { assert PathFront("/") && "/" <= r; } else { assert PathFront(r[..2]) && r[..2] <= r; }
  }

  lemma AuthorityFront(after: string, e: Env)
    requires AuthorityPath(after, e).Some?
    ensures StartsWith(AuthorityPath(after, e).value, "/")
  {
    if !StartsWith(after, "/") {
      var slash := Find(after, '/');
      var path := StripQueryFragment(after[slash..]);
      assert path[0] == after[slash];
    }
  }

  /** A text whose first character is '/' and whose second is not. */
  predicate LocalRoot(s: string) { StartsWith(s, "/") && !StartsWith(s, "//") }

  lemma {:induction false} JoinFront(parts: seq<string>)
    requires forall i :: 0 <= i < |parts| ==> '/' !in parts[i] && parts[i] != ""
    ensures parts == [] || (Join(parts, '/') != "" && Join(parts, '/')[0] == parts[0][0])
  {
  }

  lemma LexicalRoot(rest: string)
    ensures LocalRoot(Lexical("/" + rest))
  {
    var path := "/" + rest;
    var out := Resolve(Segments(path), true);
    ResolveInside(Segments(path), true);
    SplitPieces(path, '/');
    JoinFront(out);
    if out != [] { assert out[0][0] in out[0]; }
  }

  /**
   A converted `file:` URI never names a share: the result is rooted once or on a drive,
   and an authority in front of it is empty or this machine.
   */
  lemma FileUriNeverUnc(uri: string, e: Env)
    requires FileUriToFsPath(uri, e).Some?
    ensures var r := FileUriToFsPath(uri, e).value; LocalRoot(r) || LooksLikeWindowsAbs(r)
    ensures var rest := Replace(StripQueryFragment(Trim(uri)[5..]), '\\', '/');
            StartsWith(rest, "//") && !StartsWith(rest[2..], "/") ==>
              IsLocalAuthority(rest[2..][..Find(rest[2..], '/')], e)
  {
    var rest := Replace(StripQueryFragment(Trim(uri)[5..]), '\\', '/');
    if StartsWith(rest, "//") {
      AuthorityFront(rest[2..], e);
    } else if !StartsWith(rest, "/") && !LooksLikeWindowsAbs(rest) {
      LexicalRoot(rest);
    }
  }

  lemma CompactPrefix(p: string, s: string)
    requires PathFront(p) && p <= s
    ensures p <= Compact(s) && p <= Trim(s)
  {
    assert s[0] == p[0] && !Compacted(s[0]);
    assert TrimStart(s) == s;
    EndKeeps(p, s);
    if |p| == 2 {
      assert s[1] == p[1] && s[1..][0] == ':' && s[1..] == [':'] + s[2..];
      assert Compact(s) == [s[0]] + Compact(s[1..]) && Compact(s[1..]) == [':'] + Compact(s[1..][1..]);
    }
  }

  lemma {:induction false} EndKeeps(p: string, s: string)
    requires p != "" && p <= s && !IsWhitespace(p[|p| - 1])
    ensures p <= TrimEnd(s)
  {
    if s != [] && IsWhitespace(s[|s| - 1]) {
      assert p <= s[..|s| - 1] by { assert s[|p| - 1] == p[|p| - 1]; }
      EndKeeps(p, s[..|s| - 1]);
    }
  }

  /** What starts like a path is no `file:` URI, compacted or not. */
  lemma PathIsNoUri(p: string, s: string, e: Env)
    requires PathFront(p) && p <= s
    ensures FsPath(s, e) == None && !StartsWithFileScheme(s) && !StartsWithFileScheme(Compact(s))
  {
    CompactPrefix(p, s);
    CompactPrefix(p, Compact(s));
    var c := Compact(s);
    forall t | p <= t ensures !StartsWithFileScheme(t) { assert t[0] == p[0] && (|p| == 2 ==> t[1] == p[1]); }
    assert !StartsWithFileScheme(Trim(s)) && !StartsWithFileScheme(Trim(c));
  }

  /** On ASCII the skipped compaction changes nothing. */
  lemma NormalizeOnAscii(raw: string, e: Env)
    requires raw != "" && Bounded(raw).Ok? && IsAscii(Bounded(raw).text)
    ensures var d := Bounded(raw).text;
            Normalize(raw, e) == match FsPath(d, e)
                                 case Some(p) => (match Bounded(p) case Err(f) => Err(f) case Ok(b) => Ok(Nfkc(b, e)))
                                 case None =>
                                   if StartsWithFileScheme(d) || StartsWithFileScheme(Compact(d)) then Err(NotLocal)
                                   else Ok(d)
  {
    var d := Bounded(raw).text;
    if ':' !in d { NoColonNoScheme(Compact(d), e); }
  }

  /** A stable ASCII text that sniffs as no `file:` URI normalizes to itself. */
  lemma StableIsNormal(n: string, e: Env)
    requires n != "" && Stable(n) && IsAscii(n)
    requires FsPath(n, e) == None && !StartsWithFileScheme(n) && !StartsWithFileScheme(Compact(n))
    ensures Normalize(n, e) == Ok(n)
  {
    StableIsFixed(n);
    NormalizeOnAscii(n, e);
  }

  lemma FsPathFront(d: string, e: Env)
    requires FsPath(d, e).Some?
    ensures exists front :: PathFront(front) && front <= FsPath(d, e).value
  {
    if FileUriToFsPath(d, e).Some? { FileUriFront(d, e); } else { FileUriFront(Compact(d), e); }
  }

  /** The `file:` routes end in a stable path that is no URI any more. */
  lemma FileRouteFixed(d: string, p: string, n: string, e: Env)
    requires FsPath(d, e) == Some(p) && Bounded(p) == Ok(n) && IsAscii(n)
    ensures n != "" && Normalize(n, e) == Ok(n)
  {
    FsPathFront(d, e);
    var front :| PathFront(front) && front <= p;
    FrontFixed(front, p, n, e);
  }

  lemma FrontFixed(front: string, p: string, n: string, e: Env)
    requires PathFront(front) && front <= p && Bounded(p) == Ok(n) && IsAscii(n)
    ensures n != "" && Normalize(n, e) == Ok(n)
  {
    FrontBounded(front, p, n);
    PathIsNoUri(front, n, e);
    StableIsNormal(n, e);
  }

  lemma FrontBounded(front: string, p: string, n: string)
    requires PathFront(front) && front <= p && Bounded(p) == Ok(n)
    ensures front <= n && n != "" && Stable(n)
  {
    FrontQuiet(front);
    BoundedPrefix(front, p);
    BoundedStable(p);
  }

  lemma FrontQuiet(front: string)
    requires PathFront(front)
    ensures AllQuiet(front)
  {
  }

  /**
   A result reached through ASCII intermediates is a fixed point exactly when it is
   not empty, whether it came by the plain, the `file:` or the compacted route.
   */
  lemma NormalizeIdempotent(raw: string, e: Env)
    requires Normalize(raw, e).Ok? && AsciiRoute(raw, e)
    ensures var n := Normalize(raw, e); Normalize(n.text, e) == n <==> n.text != ""
  {
    var d, n := Bounded(raw).text, Normalize(raw, e).text;
    NormalizeOnAscii(raw, e);
    BoundedStable(raw);
    match FsPath(d, e) {
      case Some(p) => FileRouteFixed(d, p, n, e);
      case None => if n != "" { StableIsNormal(n, e); }
    }
  }

  /** NFKC as far as one argument goes: the fullwidth percent sign folds to '%'. */
  const FULLWIDTH: Env := Env(s => if s == "\U{FF05}2F" then "%2F" else s, s => false)

  lemma EscapedSlash()
    ensures Bounded("%2F") == Ok("/")
  {
    DecodeEscapedSlash("");
    assert "%2F" + "" == "%2F" && "/" + DecodeOnce("") == "/";
    assert "/"[1..] == "" && Strip("/") == "/";
    StripFixed("%2F");
    NoEscapeDecodes("/");
    RoundsTwo("%2F", "/", PERCENT_DECODE_MAX_ROUNDS);
  }

  lemma RoundsTwo(s: string, t: string, n: nat)
    requires n >= 1 && DecodeThenStrip(s) == Some(t) && s != t && DecodeThenStrip(t) == Some(t)
    ensures Rounds(s, n) == Ok(t)
  {
  }

  lemma NormalizePlain(raw: string, d: string, n: string, e: Env)
    requires raw != "" && Bounded(raw) == Ok(d) && Nfkc(d, e) == n && ':' !in n
    ensures Normalize(raw, e) == Ok(n)
  {
    NoColonNoScheme(n, e);
  }

  lemma NoPercentStable(s: string)
    requires '%' !in s && !HasControl(s) && NUL !in s
    ensures Bounded(s) == Ok(s)
  {
    forall i: nat ensures !EscapeAt(s, i) { if i < |s| { assert s[i] in s; } }
    StableIsFixed(s);
  }

  /** Beyond ASCII a second pass can still move: NFKC may introduce an escape after decoding is over. */
  lemma NormalizeMovesBeyondAscii(raw: string, once: string, twice: string)
    requires raw == "\U{FF05}2F" && once == "%2F" && twice == "/"
    ensures NfkcOk(FULLWIDTH)
    ensures Normalize(raw, FULLWIDTH) == Ok(once) && Normalize(once, FULLWIDTH) == Ok(twice)
  {
    WidePass(raw, once);
    EscapedSlash();
    NormalizePlain(once, twice, twice, FULLWIDTH);
  }

  lemma WidePass(raw: string, once: string)
    requires raw == "\U{FF05}2F" && once == "%2F"
    ensures Normalize(raw, FULLWIDTH) == Ok(once)
  {
    NoPercentStable(raw);
    assert !IsAscii(raw) by { assert raw[0] as int == 0xFF05; }
    NormalizePlain(raw, raw, once, FULLWIDTH);
  }
}
