/**
 The secret-path overlay on the Unix build, in its current form and in the frozen
 form it must agree with. Path resolution, home directories and the resolved
 aliases of the reserved files come in as parameters.
 */
module SecretPaths {
  import opened Options
  import opened Bytes
  import opened Utf8
  import opened Text
  import opened BoundedDecode
  import opened FsArgument

  /** What the overlay asks the host: path resolution, home directories, resolved reserved files. */
  datatype World = World(env: Env, resolve: string -> Option<string>, homes: seq<string>, aliases: seq<Option<string>>)

  const RESERVED_ABS_FILES: seq<string> := ["/etc/passwd", "/etc/shadow", "/etc/sudoers"]
  const RESERVED_DIR_NAMES: seq<string> := [".ssh", ".gnupg"]
  const RESERVED_AWS_FILE := "credentials"
  const RESERVED_AWS_DIR := ".aws"
  const RESERVED_ENV := ".env"
  const ENV_EXAMPLE := ".env.example"
  const DOT_ENV_MARKER := ".env."

  predicate EqIgnoreCase(a: string, b: string) { Lower(a) == Lower(b) }

  predicate ReservedEq(a: string, b: string) { a == b || EqIgnoreCase(a, b) }

  // ---- Pattern matching on path segments ---------------------------------------------

  function StripGlob(p: string): string { if |p| >= 3 && p[|p| - 3..] == "/**" then p[..|p| - 3] else p }

  function NormalizePattern(p: string): string { Lexical(StripGlob(p)) }

  predicate SegmentPrefixMatch(path: string, pattern: string) {
    var have, want := Segments(path), Segments(pattern);
    pattern != "." && |want| <= |have| && forall i :: 0 <= i < |want| ==> want[i] == "*" || have[i] == want[i]
  }

  /** `path_matches_lexical_normalized`: the path side is normal already. */
  predicate MatchesNormalized(normalized: string, pattern: string) {
    SegmentPrefixMatch(normalized, NormalizePattern(pattern))
  }

  // ---- The reserved set --------------------------------------------------------------------

  function Zipped(w: World): nat { Min(|RESERVED_ABS_FILES|, |w.aliases|) }

  function TrimSlashes(s: string): string { if s != "" && s[0] == '/' then TrimSlashes(s[1..]) else s }

  predicate FileHit(u: string, l: string, uLex: string, lLex: string, reserved: string, alias: Option<string>) {
    var trimmed := TrimSlashes(reserved);
    || ReservedEq(u, reserved) || MatchesNormalized(uLex, reserved) || MatchesNormalized(lLex, reserved)
    || (alias.Some? && MatchesNormalized(lLex, alias.value))
    || ReservedEq(u, trimmed) || ReservedEq(l, trimmed)
  }

  predicate NameHit(seg: string, marker: string -> bool) {
    ReservedEq(seg, RESERVED_ENV) || (marker(seg) && !ReservedEq(seg, ENV_EXAMPLE))
  }

  predicate SegmentHit(segs: seq<string>, marker: string -> bool) {
    exists i :: 0 <= i < |segs| &&
                (|| ReservedEq(segs[i], RESERVED_DIR_NAMES[0]) || ReservedEq(segs[i], RESERVED_DIR_NAMES[1])
                 || (ReservedEq(segs[i], RESERVED_AWS_DIR) && i + 1 < |segs|
                     && ReservedEq(segs[i + 1], RESERVED_AWS_FILE))
                 || NameHit(segs[i], marker))
  }

  predicate LastHit(segs: seq<string>, marker: string -> bool) { segs != [] && NameHit(segs[|segs| - 1], marker) }

  predicate HomeDirHit(u: string, uLex: string, lLex: string, prefix: string) {
    MatchesNormalized(uLex, prefix) || MatchesNormalized(lLex, Lower(prefix)) || ReservedEq(u, prefix)
  }

  predicate HomeFileHit(u: string, l: string, file: string) { ReservedEq(u, file) || ReservedEq(l, Lower(file)) }

  predicate HomeHit(u: string, l: string, uLex: string, lLex: string, home: string) {
    || HomeDirHit(u, uLex, lLex, home + "/" + RESERVED_DIR_NAMES[0])
    || HomeDirHit(u, uLex, lLex, home + "/" + RESERVED_DIR_NAMES[1])
    || HomeFileHit(u, l, home + "/" + RESERVED_AWS_DIR + "/" + RESERVED_AWS_FILE)
    || HomeFileHit(u, l, home + "/" + RESERVED_ENV)
  }

  predicate AnyHit(u: string, l: string, uLex: string, lLex: string, marker: string -> bool, w: World) {
    || (exists i :: 0 <= i < Zipped(w) && FileHit(u, l, uLex, lLex, RESERVED_ABS_FILES[i], w.aliases[i]))
    || SegmentHit(Segments(u), marker) || LastHit(Segments(u), marker)
    || exists i :: 0 <= i < |w.homes| && HomeHit(u, l, uLex, lLex, w.homes[i])
  }

  /** The frozen marker test: lower the segment, then compare its prefix. */
  predicate LowerMarker(seg: string) { StartsWith(Lower(seg), DOT_ENV_MARKER) }

  function LowerByte(b: byte): byte { if 0x41 <= b <= 0x5A then b + 32 else b }

  /** The current marker test: the first five bytes, if a character ends there, compared without case. */
  predicate ByteMarker(seg: string) {
    var b, m := Encode(seg), Encode(DOT_ENV_MARKER);
    |b| >= |m| && (|b| == |m| || !IsCont(b[|m|])) && forall i :: 0 <= i < |m| ==> LowerByte(b[i]) == LowerByte(m[i])
  }

  predicate ReferenceMatches(s: string, w: World) {
    var u := Replace(s, '\\', '/');
    var l := Lower(u);
    AnyHit(u, l, Lexical(u), Lexical(l), LowerMarker, w)
  }

  /** No separator and no dot. */
  predicate Unbroken(s: string) { '/' !in s && '.' !in s && '\\' !in s }

  predicate HasUpper(s: string) { exists i :: 0 <= i < |s| && 'A' <= s[i] <= 'Z' }

  predicate Matches(s: string, w: World) {
    if Unbroken(s) then false
    else
      var u := if '\\' in s then Replace(s, '\\', '/') else s;
      var l := if HasUpper(u) then Lower(u) else u;
      var uLex := Lexical(u);
      AnyHit(u, l, uLex, if l == u then uLex else Lexical(l), ByteMarker, w)
  }

  // ---- The marker tests agree --------------------------------------------------------------------

  ghost predicate AsciiBytes(b: bytes, k: nat) { k <= |b| && forall i :: 0 <= i < k ==> b[i] < 0x80 }

  ghost predicate AsciiChars(s: string, k: nat) { k <= |s| && forall i :: 0 <= i < k ==> (s[i] as int) < 0x80 }

  /** `k` leading ASCII bytes are `k` leading ASCII characters, and a character ends there. */
  lemma {:induction false} AsciiFront(s: string, k: nat)
    ensures AsciiBytes(Encode(s), k) <==> AsciiChars(s, k)
    ensures AsciiChars(s, k) ==> Encode(s)[k..] == Encode(s[k..])
    ensures AsciiChars(s, k) ==> forall i :: 0 <= i < k ==> Encode(s)[i] == s[i] as int as byte
    decreases k
  {
    if k > 0 && s != [] {
      var b := Encode(s);
      LeadByte(s[0]);
      if (s[0] as int) < 0x80 {
        AsciiFront(s[1..], k - 1);
        assert b == [s[0] as int as byte] + Encode(s[1..]) && b[1..] == Encode(s[1..]);
        assert AsciiChars(s, k) <==> AsciiChars(s[1..], k - 1) by { AsciiShift(s, k); }
        assert AsciiBytes(b, k) <==> AsciiBytes(b[1..], k - 1) by {
          assert forall i :: 0 < i < |b| ==> b[1..][i - 1] == b[i];
          assert forall i :: 0 <= i < |b| - 1 ==> b[i + 1] == b[1..][i];
        }
        if AsciiChars(s, k) { assert s[1..][k - 1..] == s[k..] && b[1..][k - 1..] == b[k..]; }
      } else {
        assert b[0] == EncodeChar(s[0])[0] && b[0] >= 0x80;
      }
    }
  }

  lemma AsciiShift(s: string, k: nat)
    requires k > 0 && s != [] && (s[0] as int) < 0x80
    ensures AsciiChars(s, k) <==> AsciiChars(s[1..], k - 1)
  {
    assert forall i :: 0 < i < |s| ==> s[1..][i - 1] == s[i];
    assert forall i :: 0 <= i < |s| - 1 ==> s[i + 1] == s[1..][i];
  }

  lemma ByteMarkerLowers(seg: string)
    requires ByteMarker(seg)
    ensures LowerMarker(seg)
  {
    var b, m := Encode(seg), DOT_ENV_MARKER;
    AsciiFront(seg, |m|);
    AsciiFront(m, |m|);
    assert |Encode(m)| == |m| by { assert m[|m|..] == []; }
    forall i | 0 <= i < |m| ensures b[i] < 0x80 { assert LowerByte(b[i]) == LowerByte(Encode(m)[i]); }
    assert forall i :: 0 <= i < |m| ==> Lower(seg)[i] == m[i];
  }

  lemma LowerMarkerBytes(seg: string)
    requires LowerMarker(seg)
    ensures ByteMarker(seg)
  {
    var b, m := Encode(seg), DOT_ENV_MARKER;
    AsciiFront(seg, |m|);
    AsciiFront(m, |m|);
    assert |Encode(m)| == |m| by { assert m[|m|..] == []; }
    forall i | 0 <= i < |m|
      ensures Lower(seg)[i] == m[i] && (seg[i] as int) < 0x80
    {
      assert Lower(seg)[..|m|][i] == m[i];
    }
    if |b| > |m| { LeadByte(seg[|m|]); assert b[|m|] == Encode(seg[|m|..])[0]; }
  }

  lemma MarkersAgree(seg: string)
    ensures ByteMarker(seg) == LowerMarker(seg)
  {
    if ByteMarker(seg) { ByteMarkerLowers(seg); }
    if LowerMarker(seg) { LowerMarkerBytes(seg); }
  }

  // ---- An unbroken name matches nothing ---------------------------------------------------------

  /** The texts the early exits stand for. */
  ghost predicate Bare(s: string) { Unbroken(s) || s == "." }

  lemma BareSegments(s: string)
    requires Bare(s)
    ensures Segments(s) == Segments(Lexical(s)) == if s == "" || s == "." then [] else [s]
  {
    if s == "" || s == "." {
      SplitNone(s, '/');
      assert [s][1..] == [] && Proper([s]) == [];
      SegmentsLexical(s);
    } else {
      LexicalBare(s);
    }
  }

  /** Two components at least, or one with a dot in it. */
  ghost predicate Demanding(want: seq<string>) { |want| >= 2 || (|want| == 1 && '.' in want[0]) }

  /** A demanding pattern matches no bare text. */
  lemma BareMisses(s: string, pattern: string)
    requires Bare(s)
    requires Demanding(Segments(NormalizePattern(pattern)))
    ensures !MatchesNormalized(Lexical(s), pattern)
  {
    BareSegments(s);
  }

  lemma LowerBare(s: string)
    requires Bare(s)
    ensures Bare(Lower(s))
  {
    var l := Lower(s);
    forall c | c == '/' || c == '.' || c == '\\' ensures c in l ==> c in s {
      if c in l {
        var i :| 0 <= i < |l| && l[i] == c;
        assert LowerChar(s[i]) == c && s[i] == c;
      }
    }
    if s == "." { assert l == "."; }
  }

  /** Two texts equal but for case hold the same separators and dots. */
  lemma CaseKeeps(a: string, b: string, c: char)
    requires (c == '/' || c == '.') && c in b && c !in a
    ensures !ReservedEq(a, b)
  {
    var i :| 0 <= i < |b| && b[i] == c;
    assert Lower(b)[i] == c;
    assert i < |a| ==> a[i] != c && Lower(a)[i] != c;
  }

  lemma PairSegments(a: string, b: string)
    requires a != "" && a != "." && a != ".." && '/' !in a && b != "" && b != "." && b != ".." && '/' !in b
    ensures Segments(Lexical("/" + a + "/" + b)) == [a, b]
  {
    var p := "/" + a + "/" + b;
    assert p == "" + "/" + a + "/" + b;
    SegmentsAppend("" + "/" + a, b);
    SegmentsAppend("", a);
    SplitNone("", '/');
    assert Proper([""]) == [];
    SplitNone(a, '/');
    assert Proper([a]) == [a] by { assert [a][1..] == []; }
    SplitNone(b, '/');
    assert Proper([b]) == [b] by { assert [b][1..] == []; }
    assert Segments(p) == [a, b];
    ResolveFixed([a, b], true);
    SegmentsLexical(p);
  }

  /** A name that stays as it is when a path is normalized. */
  ghost predicate Plainly(name: string) { |name| >= 3 && name != "." && name != ".." && '/' !in name }

  lemma NoGlob(front: string, name: string)
    requires Plainly(name)
    ensures StripGlob(front + "/" + name) == front + "/" + name
  {
    var p := front + "/" + name;
    assert p[|p| - 3..][0] == name[|name| - 3];
    assert name[|name| - 3] in name;
  }

  lemma FileMisses(s: string, a: string, b: string, alias: Option<string>)
    requires Bare(s) && Plainly(a) && Plainly(b)
    requires alias.Some? ==> !MatchesNormalized(Lexical(Lower(s)), alias.value)
    ensures !FileHit(s, Lower(s), Lexical(s), Lexical(Lower(s)), "/" + a + "/" + b, alias)
  {
    var r := "/" + a + "/" + b;
    LowerBare(s);
    NoGlob("/" + a, b);
    PairSegments(a, b);
    BareMisses(s, r);
    BareMisses(Lower(s), r);
    var trimmed := a + "/" + b;
    assert r[1..] == trimmed && a[0] in a;
    assert TrimSlashes(r) == trimmed;
    assert r[0] == '/' && trimmed[|a|] == '/';
    CaseKeeps(s, r, '/');
    CaseKeeps(s, trimmed, '/');
    CaseKeeps(Lower(s), trimmed, '/');
  }

  lemma TailSegments(front: string, name: string)
    requires Plainly(name) && '.' in name
    ensures Demanding(Segments(NormalizePattern(front + "/" + name)))
  {
    var p := front + "/" + name;
    NoGlob(front, name);
    SegmentsAppend(front, name);
    SplitNone(name, '/');
    assert Proper([name]) == [name] by { assert [name][1..] == []; }
    var segs := Segments(p);
    assert segs == Segments(front) + [name] && segs[..|segs| - 1] == Segments(front);
    SegmentsLexical(p);
  }

  lemma LowerTail(front: string, name: string)
    requires !HasUpper(name)
    ensures Lower(front + "/" + name) == Lower(front) + "/" + name
  {
  }

  ghost predicate IsDirName(name: string) { Plainly(name) && '.' in name && !HasUpper(name) }

  lemma HomeDirMisses(s: string, home: string, name: string)
    requires Bare(s) && IsDirName(name)
    ensures !HomeDirHit(s, Lexical(s), Lexical(Lower(s)), home + "/" + name)
  {
    LowerBare(s);
    LowerTail(home, name);
    TailSegments(home, name);
    TailSegments(Lower(home), name);
    BareMisses(s, home + "/" + name);
    BareMisses(Lower(s), Lower(home) + "/" + name);
    assert (home + "/" + name)[|home|] == '/';
    CaseKeeps(s, home + "/" + name, '/');
  }

  lemma SlashMisses(s: string, front: string, back: string)
    requires Bare(s)
    ensures !HomeFileHit(s, Lower(s), front + "/" + back)
  {
    var p := front + "/" + back;
    LowerBare(s);
    assert p[|front|] == '/' && Lower(p)[|front|] == '/';
    CaseKeeps(s, p, '/');
    CaseKeeps(Lower(s), Lower(p), '/');
  }

  lemma DirNamesAreNames()
    ensures forall i :: 0 <= i < 2 ==> IsDirName(RESERVED_DIR_NAMES[i])
  {
    assert ".ssh"[0] == '.' && ".gnupg"[0] == '.';
  }

  lemma HomeMisses(s: string, home: string)
    requires Bare(s)
    ensures !HomeHit(s, Lower(s), Lexical(s), Lexical(Lower(s)), home)
  {
    DirNamesAreNames();
    HomeDirMisses(s, home, RESERVED_DIR_NAMES[0]);
    HomeDirMisses(s, home, RESERVED_DIR_NAMES[1]);
    SlashMisses(s, home + "/" + RESERVED_AWS_DIR, RESERVED_AWS_FILE);
    SlashMisses(s, home, RESERVED_ENV);
  }

  lemma SegmentMisses(s: string, marker: string -> bool)
    requires Bare(s) && (Unbroken(s) ==> !marker(s))
    ensures !SegmentHit(Segments(s), marker) && !LastHit(Segments(s), marker)
  {
    BareSegments(s);
    if s != "" && s != "." {
      CaseKeeps(s, RESERVED_DIR_NAMES[0], '.');
      CaseKeeps(s, RESERVED_DIR_NAMES[1], '.');
      CaseKeeps(s, RESERVED_AWS_DIR, '.');
      CaseKeeps(s, RESERVED_ENV, '.');
    }
  }

  // ---- Exactly when the early exit is safe --------------------------------------------------------

  predicate IsSpecial(c: char) { c == '.' || c == '\\' || 'A' <= c <= 'Z' }

  /** No unbroken name matches this resolved alias. */
  predicate AliasSafe(alias: string) {
    var pattern := NormalizePattern(alias);
    var want := Segments(pattern);
    pattern == "." || |want| >= 2
      || (|want| == 1 && want[0] != "*" && exists i :: 0 <= i < |want[0]| && IsSpecial(want[0][i]))
  }

  predicate AliasesSafe(w: World) {
    forall i :: 0 <= i < Zipped(w) && w.aliases[i].Some? ==> AliasSafe(w.aliases[i].value)
  }

  lemma AliasMisses(s: string, alias: string)
    requires Bare(s) && AliasSafe(alias)
    ensures !MatchesNormalized(Lexical(Lower(s)), alias)
  {
    var l := Lower(s);
    LowerBare(s);
    BareSegments(l);
    if s != "." {
      forall i | 0 <= i < |l| ensures !IsSpecial(l[i]) { assert l[i] == LowerChar(s[i]) && l[i] in l; }
    }
  }

  lemma BareMatchesNothing(s: string, w: World)
    requires Bare(s) && AliasesSafe(w)
    ensures !ReferenceMatches(s, w)
  {
    var u := Replace(s, '\\', '/');
    assert u == s;
    forall i | 0 <= i < Zipped(w)
      ensures !FileHit(s, Lower(s), Lexical(s), Lexical(Lower(s)), RESERVED_ABS_FILES[i], w.aliases[i])
    {
      if w.aliases[i].Some? { AliasMisses(s, w.aliases[i].value); }
      ReservedFileMisses(s, i, w.aliases[i]);
    }
    forall i | 0 <= i < |w.homes| ensures !HomeHit(s, Lower(s), Lexical(s), Lexical(Lower(s)), w.homes[i]) {
      HomeMisses(s, w.homes[i]);
    }
    if Unbroken(s) && s != "" {
      assert s[0] in s && Lower(s)[0] != '.';
    }
    SegmentMisses(s, LowerMarker);
  }

  lemma ReservedFileMisses(s: string, i: nat, alias: Option<string>)
    requires Bare(s) && i < |RESERVED_ABS_FILES|
    requires alias.Some? ==> !MatchesNormalized(Lexical(Lower(s)), alias.value)
    ensures !FileHit(s, Lower(s), Lexical(s), Lexical(Lower(s)), RESERVED_ABS_FILES[i], alias)
  {
    var name := if i == 0 then "passwd" else if i == 1 then "shadow" else "sudoers";
    assert RESERVED_ABS_FILES[i] == "/" + "etc" + "/" + name;
    FileMisses(s, "etc", name, alias);
  }

  lemma MarkersInterchange(u: string, l: string, uLex: string, lLex: string, w: World)
    ensures AnyHit(u, l, uLex, lLex, ByteMarker, w) == AnyHit(u, l, uLex, lLex, LowerMarker, w)
  {
    var segs := Segments(u);
    forall seg: string ensures NameHit(seg, ByteMarker) == NameHit(seg, LowerMarker) { MarkersAgree(seg); }
    assert SegmentHit(segs, ByteMarker) == SegmentHit(segs, LowerMarker);
  }

  lemma MatchesBroken(s: string, w: World)
    requires !Unbroken(s)
    ensures Matches(s, w) == ReferenceMatches(s, w)
  {
    var u := Replace(s, '\\', '/');
    var l := Lower(u);
    assert '\\' !in s ==> u == s;
    assert !HasUpper(u) ==> l == u;
    MarkersInterchange(u, l, Lexical(u), Lexical(l), w);
  }

  lemma MatchesAgree(s: string, w: World)
    requires AliasesSafe(w)
    ensures Matches(s, w) == ReferenceMatches(s, w)
  {
    if Unbroken(s) { BareMatchesNothing(s, w); } else { MatchesBroken(s, w); }
  }

  /** An unsafe alias is matched by some unbroken name. */
  lemma UnsafeAliasHits(alias: string) returns (s: string)
    requires !AliasSafe(alias)
    ensures Unbroken(s) && MatchesNormalized(Lexical(Lower(s)), alias)
  {
    var want := Segments(NormalizePattern(alias));
    SplitPieces(NormalizePattern(alias), '/');
    if want == [] || want[0] == "*" {
      s := "a";
      assert Lower("a") == "a";
    } else {
      s := want[0];
      assert forall i :: 0 <= i < |s| ==> !IsSpecial(s[i]);
      assert Lower(s) == s;
    }
    BareSegments(s);
  }

  /** The unbroken-name early exit changes no verdict exactly when every resolved alias is safe. */
  lemma EarlyExitExact(w: World)
    ensures (forall s :: Matches(s, w) == ReferenceMatches(s, w)) <==> AliasesSafe(w)
  {
    if AliasesSafe(w) {
      forall s ensures Matches(s, w) == ReferenceMatches(s, w) { MatchesAgree(s, w); }
    } else {
      var i :| 0 <= i < Zipped(w) && w.aliases[i].Some? && !AliasSafe(w.aliases[i].value);
      var s := UnsafeAliasHits(w.aliases[i].value);
      var u := Replace(s, '\\', '/');
      assert u == s;
      assert FileHit(u, Lower(u), Lexical(u), Lexical(Lower(u)), RESERVED_ABS_FILES[i], w.aliases[i]);
      assert ReferenceMatches(s, w) && !Matches(s, w);
    }
  }

  // ---- The overlay's entry points -----------------------------------------------------------------

  function StripDrivePrefix(path: string): string {
    var u := Replace(path, '\\', '/');
    if |u| >= 2 && u[1] == ':' && IsLetter(u[0]) then u[2..] else u
  }

  predicate LexicalHit(raw: string, w: World) {
    Matches(if '/' in raw || '\\' in raw || '.' in raw then Lexical(raw) else raw, w)
  }

  predicate ResolvedHit(raw: string, w: World) {
    w.resolve(raw).Some? &&
    var r := Nfkc(w.resolve(raw).value, w.env);
    Matches(r, w) || Matches(Lexical(r), w) || Matches(StripDrivePrefix(r), w)
  }

  predicate ReservedAfterNormalize(path: string, w: World) {
    path != "" && NUL !in path && (LexicalHit(Nfkc(path, w.env), w) || ResolvedHit(Nfkc(path, w.env), w))
  }

  predicate ReferenceResolvedHit(raw: string, w: World) {
    w.resolve(raw).Some? &&
    var r := w.env.nfkc(w.resolve(raw).value);
    ReferenceMatches(r, w) || ReferenceMatches(Lexical(r), w) || ReferenceMatches(StripDrivePrefix(r), w)
  }

  predicate ReferenceReserved(path: string, w: World) {
    path != "" && NUL !in path
    && (ReferenceMatches(Lexical(w.env.nfkc(path)), w) || ReferenceResolvedHit(w.env.nfkc(path), w))
  }

  predicate IsSecretPath(path: string, w: World) {
    if path == "" || NUL in path then false
    else
      ReservedAfterNormalize(path, w) ||
      match Normalize(path, w.env)
      case Ok(normalized) => normalized != path && ReservedAfterNormalize(normalized, w)
      case Err(_) => true
  }

  predicate ReferenceIsSecret(path: string, w: World) {
    if path == "" || NUL in path then false
    else
      ReferenceReserved(path, w) ||
      match Reference(path, w.env)
      case Ok(normalized) => ReferenceReserved(normalized, w)
      case Err(_) => true
  }

  predicate IsSecretPathNormalized(raw: string, normalized: string, w: World) {
    if raw == "" || NUL in raw then false
    else if ReservedAfterNormalize(raw, w) then true
    else if raw != normalized then ReservedAfterNormalize(normalized, w)
    else if '%' !in normalized then false
    else
      match Normalize(normalized, w.env)
      case Ok(second) => second != normalized && ReservedAfterNormalize(second, w)
      case Err(_) => true
  }

  predicate IsSecretPathPreNormalized(normalized: string, w: World) {
    IsSecretPathNormalized(normalized, normalized, w)
  }

  datatype Verdict = Clear | EmptyOrNul | Rejected(fault: Fault) | Invisible | Reserved | DirtyScheme | Opaque

  predicate HasInvisible(path: string) { exists i :: 0 <= i < |path| && IsFormatNoise(path[i]) }

  function OverlayDenies(path: string, w: World): Verdict {
    if path == "" || NUL in path then EmptyOrNul
    else
      match Normalize(path, w.env)
      case Err(f) => Rejected(f)
      case Ok(n) =>
        if HasInvisible(path) || HasInvisible(n) then Invisible
        else if IsSecretPathNormalized(path, n, w) then Reserved
        else if UriSchemeSlotIsDirty(path, w.env) || UriSchemeSlotIsDirty(n, w.env) then DirtyScheme
        else if IsOpaqueFileUri(path, w.env) || IsOpaqueFileUri(n, w.env) then Opaque
        else Clear
  }

  function ReferenceDenies(path: string, w: World): Verdict {
    if path == "" || NUL in path then EmptyOrNul
    else
      match Reference(path, w.env)
      case Err(f) => Rejected(f)
      case Ok(n) =>
        if HasInvisible(path) || HasInvisible(n) then Invisible
        else if ReferenceReserved(path, w) || ReferenceReserved(n, w) then Reserved
        else if ReferenceSlotIsDirty(path, w.env) || ReferenceSlotIsDirty(n, w.env) then DirtyScheme
        else if ReferenceIsOpaque(path, w.env) || ReferenceIsOpaque(n, w.env) then Opaque
        else Clear
  }

  lemma LexicalHitAgrees(raw: string, w: World)
    requires AliasesSafe(w)
    ensures LexicalHit(raw, w) == ReferenceMatches(Lexical(raw), w)
  {
    if Unbroken(raw) {
      if raw == "" { BareMatchesNothing(".", w); } else { LexicalBare(raw); BareMatchesNothing(raw, w); }
    } else {
      MatchesAgree(Lexical(raw), w);
    }
  }

  lemma ResolvedHitAgrees(raw: string, w: World)
    requires NfkcOk(w.env) && AliasesSafe(w)
    ensures ResolvedHit(raw, w) == ReferenceResolvedHit(raw, w)
  {
    if w.resolve(raw).Some? {
      var r := w.env.nfkc(w.resolve(raw).value);
      MatchesAgree(r, w);
      MatchesAgree(Lexical(r), w);
      MatchesAgree(StripDrivePrefix(r), w);
    }
  }

  lemma ReservedAgree(path: string, w: World)
    requires NfkcOk(w.env) && AliasesSafe(w)
    ensures ReservedAfterNormalize(path, w) == ReferenceReserved(path, w)
  {
    LexicalHitAgrees(w.env.nfkc(path), w);
    ResolvedHitAgrees(w.env.nfkc(path), w);
  }

  /** Sharing one normalization changes no verdict, whatever the host answers. */
  lemma IsSecretPathAgrees(path: string, w: World)
    requires NfkcOk(w.env) && AliasesSafe(w)
    ensures IsSecretPath(path, w) == ReferenceIsSecret(path, w)
  {
    NormalizeAgrees(path, w.env);
    ReservedAgree(path, w);
    if path != "" && Normalize(path, w.env).Ok? { ReservedAgree(Normalize(path, w.env).text, w); }
  }

  /** Given a path and its own normal form, the shared check is the two-phase check. */
  lemma SharedCheck(path: string, n: string, w: World)
    requires path != "" && NUL !in path && Normalize(path, w.env) == Ok(n)
    ensures IsSecretPathNormalized(path, n, w) == (ReservedAfterNormalize(path, w) || ReservedAfterNormalize(n, w))
  {
  }

  lemma OverlayAgrees(path: string, w: World)
    requires NfkcOk(w.env) && AliasesSafe(w)
    ensures OverlayDenies(path, w) == ReferenceDenies(path, w)
  {
    NormalizeAgrees(path, w.env);
    if path != "" && NUL !in path && Normalize(path, w.env).Ok? {
      var n := Normalize(path, w.env).text;
      SharedCheck(path, n, w);
      ReservedAgree(path, w);
      ReservedAgree(n, w);
      assert UriSchemeSlotIsDirty(path, w.env) == ReferenceSlotIsDirty(path, w.env);
      assert UriSchemeSlotIsDirty(n, w.env) == ReferenceSlotIsDirty(n, w.env);
      assert IsOpaqueFileUri(path, w.env) == ReferenceIsOpaque(path, w.env);
      assert IsOpaqueFileUri(n, w.env) == ReferenceIsOpaque(n, w.env);
    }
  }

  /** A result of normalization through ASCII intermediates needs no second pass. */
  lemma PreNormalizedAgrees(raw: string, w: World)
    requires NfkcOk(w.env) && AliasesSafe(w)
    requires Normalize(raw, w.env).Ok? && AsciiRoute(raw, w.env)
    ensures var n := Normalize(raw, w.env).text; IsSecretPathPreNormalized(n, w) == ReferenceIsSecret(n, w)
  {
    var n := Normalize(raw, w.env).text;
    if n != "" && NUL !in n {
      NormalizeIdempotent(raw, w.env);
      NormalizeAgrees(n, w.env);
      ReservedAgree(n, w);
      SharedCheck(n, n, w);
    }
  }
}
