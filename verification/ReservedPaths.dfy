/**
 Which paths the secret overlay reserves, stated on the components of the text: the
 reserved names, the credentials file behind `.aws`, and the three files under `/etc`.
 */
module ReservedPaths {
  import opened Options
  import opened Bytes
  import opened Utf8
  import opened Text
  import opened BoundedDecode
  import opened FsArgument
  import opened SecretPaths

  // ---- The reserved set --------------------------------------------------------------------

  /** A component name, lowered, that is reserved wherever it stands. */
  predicate SecretName(n: string) {
    n == ".ssh" || n == ".gnupg" || n == ".env" || (StartsWith(n, ".env.") && n != ".env.example")
  }

  predicate Blank(n: string) { n == "" || n == "." }

  /** The components of a text, either separator, lowered. */
  function Components(s: string): seq<string> { Split(Lower(Replace(s, '\\', '/')), '/') }

  ghost predicate HasName(p: seq<string>) { exists i :: 0 <= i < |p| && SecretName(p[i]) }

  /** `.aws` at `i` and `credentials` at `j`, nothing but blank components between them. */
  ghost predicate KeysAt(p: seq<string>, i: nat, j: nat) {
    i < j < |p| && p[i] == ".aws" && p[j] == "credentials" && forall k :: i < k < j ==> Blank(p[k])
  }

  ghost predicate HasKeys(p: seq<string>) { exists i: nat, j: nat :: KeysAt(p, i, j) }

  const ETC_NAMES := ["passwd", "shadow", "sudoers"]

  predicate Beneath(f: string, file: string) { f == file || StartsWith(f, file + "/") }

  predicate EtcFile(f: string, name: string) { Beneath(f, "/etc/" + name) || Beneath(f, "etc/" + name) }

  /** The text, folded and lowered, is one of the three files or lies beneath one. */
  ghost predicate IsEtc(s: string) {
    exists i :: 0 <= i < 3 && EtcFile(Lexical(Lower(Replace(s, '\\', '/'))), ETC_NAMES[i])
  }

  ghost predicate IsReserved(s: string) { HasName(Components(s)) || HasKeys(Components(s)) || IsEtc(s) }

  /** The text, folded and lowered, is matched by a resolved alias of a reserved file. */
  ghost predicate AliasHit(s: string, w: World) {
    exists i :: 0 <= i < 3 && i < |w.aliases| && w.aliases[i].Some?
                && MatchesNormalized(Lexical(Lower(Replace(s, '\\', '/'))), w.aliases[i].value)
  }

  // ---- Lowering commutes with everything ---------------------------------------------------

  function LowerAll(parts: seq<string>): (r: seq<string>)
    ensures |r| == |parts| && forall i :: 0 <= i < |r| ==> r[i] == Lower(parts[i])
  {
    seq(|parts|, i requires 0 <= i < |parts| => Lower(parts[i]))
  }

  lemma LowerTwice(s: string)
    ensures Lower(Lower(s)) == Lower(s)
  {
  }

  lemma LowerAppend(a: string, b: string)
    ensures Lower(a + b) == Lower(a) + Lower(b)
  {
  }

  lemma {:induction false} SplitLower(s: string)
    ensures Split(Lower(s), '/') == LowerAll(Split(s, '/'))
  {
    if s == [] {
      assert Lower(s) == s && LowerAll([""]) == [""];
    } else {
      SplitLower(s[1..]);
      assert Lower(s)[0] == LowerChar(s[0]) && Lower(s)[1..] == Lower(s[1..]);
      GlueLower(s[0], Split(s[1..], '/'));
    }
  }

  lemma GlueLower(x: char, pieces: seq<string>)
    requires pieces != []
    ensures Glue(LowerChar(x), LowerAll(pieces), '/') == LowerAll(Glue(x, pieces, '/'))
  {
    if x == '/' {
      assert Lower("") == "";
      assert LowerAll([""] + pieces) == [""] + LowerAll(pieces);
    } else {
      LowerAppend([x], pieces[0]);
      assert Lower([x]) == [LowerChar(x)];
      assert LowerAll([[x] + pieces[0]] + pieces[1..]) == [Lower([x] + pieces[0])] + LowerAll(pieces[1..]);
      assert LowerAll(pieces)[1..] == LowerAll(pieces[1..]);
    }
  }

  lemma LowerBlank(n: string)
    ensures Blank(Lower(n)) == Blank(n) && (Lower(n) == ".." <==> n == "..")
  {
    if Lower(n) == "." { assert n[0] == '.' && n == "."; }
    if Lower(n) == ".." { assert n[0] == '.' && n[1] == '.' && n == ".."; }
  }

  lemma {:induction false} ProperLower(parts: seq<string>)
    ensures Proper(LowerAll(parts)) == LowerAll(Proper(parts))
  {
    if parts != [] {
      LowerBlank(parts[0]);
      ProperLower(parts[1..]);
      assert LowerAll(parts)[1..] == LowerAll(parts[1..]);
      LowerAllCons(parts[0], Proper(parts[1..]));
    }
  }

  lemma LowerAllCons(n: string, parts: seq<string>)
    ensures LowerAll([n] + parts) == [Lower(n)] + LowerAll(parts)
  {
  }

  lemma SegmentsLower(s: string)
    ensures Segments(Lower(s)) == LowerAll(Segments(s)) && Rooted(Lower(s)) == Rooted(s)
  {
    SplitLower(s);
    ProperLower(Split(s, '/'));
  }

  lemma {:induction false} ResolveLower(segs: seq<string>, rooted: bool)
    ensures Resolve(LowerAll(segs), rooted) == LowerAll(Resolve(segs, rooted))
  {
    if segs != [] {
      var n := |segs| - 1;
      ResolveLower(segs[..n], rooted);
      assert LowerAll(segs)[..n] == LowerAll(segs[..n]);
      ApplyLower(Resolve(segs[..n], rooted), segs[n], rooted);
    }
  }

  lemma ApplyLower(out: seq<string>, seg: string, rooted: bool)
    ensures Apply(LowerAll(out), Lower(seg), rooted) == LowerAll(Apply(out, seg, rooted))
  {
    LowerBlank(seg);
    if seg != ".." {
      assert LowerAll(out + [seg]) == LowerAll(out) + [Lower(seg)];
    } else if out != [] {
      assert LowerAll(out[..|out| - 1]) == LowerAll(out)[..|out| - 1];
    } else if !rooted {
      assert LowerAll([".."]) == [".."] by { assert Lower("..") == ".."; }
    }
  }

  /** The folded components of the lowered text are the lowered folded components. */
  lemma FoldedLower(s: string)
    ensures Segments(Lexical(Lower(s))) == LowerAll(Segments(Lexical(s)))
  {
    SegmentsLower(s);
    SegmentsLexical(s);
    SegmentsLexical(Lower(s));
    ResolveLower(Segments(s), Rooted(s));
  }

  // ---- Names among the components ----------------------------------------------------------

  lemma {:induction false} ProperHolds(parts: seq<string>, n: string)
    ensures n in Proper(parts) <==> n in parts && !Blank(n)
  {
    if parts != [] {
      ProperHolds(parts[1..], n);
      assert parts == [parts[0]] + parts[1..];
    }
  }

  /** The first proper component stands behind blanks only. */
  lemma {:induction false} FirstProper(parts: seq<string>) returns (j: nat)
    requires Proper(parts) != []
    ensures j < |parts| && parts[j] == Proper(parts)[0] && forall k :: 0 <= k < j ==> Blank(parts[k])
  {
    if Blank(parts[0]) {
      var i := FirstProper(parts[1..]);
      j := i + 1;
      forall k | 0 <= k < j ensures Blank(parts[k]) { if k > 0 { assert parts[1..][k - 1] == parts[k]; } }
    } else {
      j := 0;
    }
  }

  lemma {:induction false} FirstIs(parts: seq<string>, j: nat)
    requires j < |parts| && !Blank(parts[j]) && forall k :: 0 <= k < j ==> Blank(parts[k])
    ensures Proper(parts) != [] && Proper(parts)[0] == parts[j]
  {
    if j > 0 {
      assert Blank(parts[0]);
      FirstIs(parts[1..], j - 1);
    }
  }

  /** `a` directly before `b` among the proper components. */
  ghost predicate Adjacent(segs: seq<string>, a: string, b: string) {
    exists i :: 0 <= i < |segs| - 1 && segs[i] == a && segs[i + 1] == b
  }

  lemma AdjacentShift(segs: seq<string>, n: string, a: string, b: string)
    ensures Adjacent([n] + segs, a, b) <==> (segs != [] && n == a && segs[0] == b) || Adjacent(segs, a, b)
  {
    var all := [n] + segs;
    if Adjacent(all, a, b) {
      var i :| 0 <= i < |all| - 1 && all[i] == a && all[i + 1] == b;
      if i > 0 { assert segs[i - 1] == a && segs[i] == b; }
    }
    if Adjacent(segs, a, b) {
      var i :| 0 <= i < |segs| - 1 && segs[i] == a && segs[i + 1] == b;
      assert all[i + 1] == a && all[i + 2] == b;
    }
    if segs != [] && n == a && segs[0] == b { assert all[0] == a && all[1] == b; }
  }

  lemma KeysShift(parts: seq<string>)
    requires parts != [] && HasKeys(parts[1..])
    ensures HasKeys(parts)
  {
    var i: nat, j: nat :| KeysAt(parts[1..], i, j);
    forall k | i + 1 < k < j + 1 ensures Blank(parts[k]) { assert parts[1..][k - 1] == parts[k]; }
    assert KeysAt(parts, i + 1, j + 1);
  }

  lemma KeysUnshift(parts: seq<string>, i: nat, j: nat)
    requires KeysAt(parts, i, j) && i > 0
    ensures HasKeys(parts[1..])
  {
    forall k | i - 1 < k < j - 1 ensures Blank(parts[1..][k]) { assert parts[1..][k] == parts[k + 1]; }
    assert KeysAt(parts[1..], i - 1, j - 1);
  }

  lemma {:induction false} KeysExact(parts: seq<string>)
    ensures HasKeys(parts) <==> Adjacent(Proper(parts), ".aws", "credentials")
  {
    if parts != [] {
      var rest := parts[1..];
      KeysExact(rest);
      if HasKeys(parts) { KeysToAdjacent(parts); }
      if Adjacent(Proper(parts), ".aws", "credentials") { AdjacentToKeys(parts); }
    }
  }

  lemma KeysToAdjacent(parts: seq<string>)
    requires parts != [] && HasKeys(parts)
    requires HasKeys(parts[1..]) ==> Adjacent(Proper(parts[1..]), ".aws", "credentials")
    ensures Adjacent(Proper(parts), ".aws", "credentials")
  {
    var rest := parts[1..];
    var i: nat, j: nat :| KeysAt(parts, i, j);
    AdjacentShift(Proper(rest), parts[0], ".aws", "credentials");
    if i > 0 {
      KeysUnshift(parts, i, j);
    } else {
      forall k | 0 <= k < j - 1 ensures Blank(rest[k]) { assert rest[k] == parts[k + 1]; }
      FirstIs(rest, j - 1);
    }
  }

  lemma AdjacentToKeys(parts: seq<string>)
    requires parts != [] && Adjacent(Proper(parts), ".aws", "credentials")
    requires Adjacent(Proper(parts[1..]), ".aws", "credentials") ==> HasKeys(parts[1..])
    ensures HasKeys(parts)
  {
    var rest := parts[1..];
    if Adjacent(Proper(rest), ".aws", "credentials") {
      KeysShift(parts);
    } else {
      AdjacentShift(Proper(rest), parts[0], ".aws", "credentials");
      var j := FirstProper(rest);
      forall k | 0 < k < j + 1 ensures Blank(parts[k]) { assert rest[k - 1] == parts[k]; }
      assert KeysAt(parts, 0, j + 1);
    }
  }

  // ---- What the segment test reserves ------------------------------------------------------

  lemma EqLower(a: string, b: string)
    requires Lower(b) == b
    ensures ReservedEq(a, b) <==> Lower(a) == b
  {
  }

  lemma NamesAreLower()
    ensures Lower(".ssh") == ".ssh" && Lower(".gnupg") == ".gnupg" && Lower(".aws") == ".aws" && Lower(".env") == ".env"
    ensures Lower("credentials") == "credentials" && Lower(".env.example") == ".env.example"
  {
  }

  /** One component's part of the segment test. */
  lemma NameExact(seg: string)
    ensures ReservedEq(seg, RESERVED_DIR_NAMES[0]) || ReservedEq(seg, RESERVED_DIR_NAMES[1])
            || NameHit(seg, LowerMarker)
       <==> SecretName(Lower(seg))
  {
    NamesAreLower();
    EqLower(seg, ".ssh");
    EqLower(seg, ".gnupg");
    EqLower(seg, ".env");
    EqLower(seg, ".env.example");
  }

  lemma PairExact(segs: seq<string>, i: nat)
    requires i + 1 < |segs|
    ensures ReservedEq(segs[i], RESERVED_AWS_DIR) && ReservedEq(segs[i + 1], RESERVED_AWS_FILE)
       <==> LowerAll(segs)[i] == ".aws" && LowerAll(segs)[i + 1] == "credentials"
  {
    NamesAreLower();
    EqLower(segs[i], ".aws");
    EqLower(segs[i + 1], "credentials");
  }

  lemma SegmentsExact(segs: seq<string>)
    ensures SegmentHit(segs, LowerMarker)
       <==> HasName(LowerAll(segs)) || Adjacent(LowerAll(segs), ".aws", "credentials")
  {
    var low := LowerAll(segs);
    if SegmentHit(segs, LowerMarker) { SegmentHitNamed(segs); }
    if HasName(low) {
      var i :| 0 <= i < |low| && SecretName(low[i]);
      NameExact(segs[i]);
    }
    if Adjacent(low, ".aws", "credentials") {
      var i :| 0 <= i < |low| - 1 && low[i] == ".aws" && low[i + 1] == "credentials";
      PairExact(segs, i);
    }
  }

  lemma SegmentHitNamed(segs: seq<string>)
    requires SegmentHit(segs, LowerMarker)
    ensures HasName(LowerAll(segs)) || Adjacent(LowerAll(segs), ".aws", "credentials")
  {
    var low := LowerAll(segs);
    var i :| 0 <= i < |segs|
      && (|| ReservedEq(segs[i], RESERVED_DIR_NAMES[0]) || ReservedEq(segs[i], RESERVED_DIR_NAMES[1])
          || (ReservedEq(segs[i], RESERVED_AWS_DIR) && i + 1 < |segs| && ReservedEq(segs[i + 1], RESERVED_AWS_FILE))
          || NameHit(segs[i], LowerMarker));
    NameExact(segs[i]);
    if SecretName(low[i]) {
      assert HasName(low);
    } else {
      PairExact(segs, i);
      assert low[i] == ".aws" && low[i + 1] == "credentials";
    }
  }

  lemma NameNotBlank(n: string)
    requires SecretName(n)
    ensures !Blank(n)
  {
  }

  lemma NamesProper(parts: seq<string>)
    ensures HasName(Proper(parts)) <==> HasName(parts)
  {
    if HasName(Proper(parts)) {
      var i :| 0 <= i < |Proper(parts)| && SecretName(Proper(parts)[i]);
      ProperHolds(parts, Proper(parts)[i]);
      var j :| 0 <= j < |parts| && parts[j] == Proper(parts)[i];
    }
    if HasName(parts) {
      var i :| 0 <= i < |parts| && SecretName(parts[i]);
      NameNotBlank(parts[i]);
      ProperHolds(parts, parts[i]);
      var j :| 0 <= j < |Proper(parts)| && Proper(parts)[j] == parts[i];
    }
  }

  /** The segment test reserves exactly the texts with a reserved component. */
  lemma SegmentHitExact(u: string)
    ensures SegmentHit(Segments(u), LowerMarker) <==> HasName(Split(Lower(u), '/')) || HasKeys(Split(Lower(u), '/'))
  {
    SegmentsExact(Segments(u));
    SegmentsLower(u);
    NamesProper(Split(Lower(u), '/'));
    KeysExact(Split(Lower(u), '/'));
  }

  // ---- The files under /etc ----------------------------------------------------------------

  ghost predicate Leads(segs: seq<string>, a: string, b: string) { |segs| >= 2 && segs[0] == a && segs[1] == b }

  ghost predicate Solid(n: string) { Plainly(n) && !HasUpper(n) && n != "*" }

  lemma SolidSegments(n: string)
    requires Solid(n)
    ensures Segments(n) == [n] && Lower(n) == n
  {
    OneSegment(n);
  }

  lemma JoinTwo(a: string, b: string, rest: seq<string>)
    ensures Join([a, b] + rest, '/') == a + "/" + b + if rest == [] then "" else "/" + Join(rest, '/')
  {
    var all := [a, b] + rest;
    assert all[1..] == [b] + rest && ([b] + rest)[1..] == rest;
  }

  /** Folded components that start with `a`, `b` are the text `a/b`, or one beneath it. */
  lemma LeadsBeneath(out: seq<string>, rooted: bool, a: string, b: string)
    requires Leads(out, a, b)
    ensures Beneath(Render(out, rooted), (if rooted then "/" else "") + a + "/" + b)
  {
    var rest := out[2..];
    assert out == [a, b] + rest;
    JoinTwo(a, b, rest);
    var file := (if rooted then "/" else "") + a + "/" + b;
    if rest != [] { assert Render(out, rooted) == file + "/" + Join(rest, '/'); }
  }

  lemma BeneathLeads(f: string, front: string, a: string, b: string)
    requires Solid(a) && Solid(b) && (front == "" || front == "/") && Beneath(f, front + a + "/" + b)
    ensures Leads(Segments(f), a, b)
  {
    var file := front + a + "/" + b;
    PairUnder(front, a, b);
    if f != file {
      var rest := f[|file| + 1..];
      assert f == file + "/" + rest;
      SegmentsAppend(file, rest);
    }
  }

  lemma PairUnder(front: string, a: string, b: string)
    requires Solid(a) && Solid(b) && (front == "" || front == "/")
    ensures Segments(front + a + "/" + b) == [a, b]
  {
    SolidSegments(a);
    SolidSegments(b);
    SegmentsAppend(front + a, b);
    if front == "/" { RootSegments(a); } else { assert front + a == a; }
  }

  lemma PatternPair(a: string, b: string)
    requires Solid(a) && Solid(b)
    ensures Segments(NormalizePattern("/" + a + "/" + b)) == [a, b] && NormalizePattern("/" + a + "/" + b) != "."
  {
    NoGlob("/" + a, b);
    PairSegments(a, b);
    assert Rooted("/" + a + "/" + b);
  }

  lemma MatchesPair(f: string, a: string, b: string)
    requires Solid(a) && Solid(b)
    ensures MatchesNormalized(f, "/" + a + "/" + b) <==> Leads(Segments(f), a, b)
  {
    PatternPair(a, b);
  }

  lemma RenderRooted(s: string)
    ensures Lexical(s) == Render(Segments(Lexical(s)), Rooted(s))
  {
    SegmentsLexical(s);
  }

  lemma RenderedBeneath(f: string, out: seq<string>, rooted: bool, a: string, b: string)
    requires f == Render(out, rooted) && Leads(out, a, b)
    ensures Beneath(f, "/" + a + "/" + b) || Beneath(f, a + "/" + b)
  {
    LeadsBeneath(out, rooted, a, b);
    if !rooted { assert "" + a + "/" + b == a + "/" + b; }
  }

  /** The folded text is the file, or lies beneath it, exactly when its components start with the file's. */
  lemma LexicalBeneath(s: string, a: string, b: string)
    requires Solid(a) && Solid(b)
    ensures Beneath(Lexical(s), "/" + a + "/" + b) || Beneath(Lexical(s), a + "/" + b)
       <==> Leads(Segments(Lexical(s)), a, b)
  {
    var f := Lexical(s);
    assert "" + a + "/" + b == a + "/" + b;
    if Beneath(f, "/" + a + "/" + b) {
      BeneathLeads(f, "/", a, b);
    } else if Beneath(f, a + "/" + b) {
      BeneathLeads(f, "", a, b);
    } else if Leads(Segments(f), a, b) {
      RenderRooted(s);
      RenderedBeneath(f, Segments(f), Rooted(s), a, b);
    }
  }

  /** The text as it stands is covered by the folded, lowered one ... */
  lemma UpperCovered(u: string, a: string, b: string)
    requires Solid(a) && Solid(b) && MatchesNormalized(Lexical(u), "/" + a + "/" + b)
    ensures Leads(Segments(Lexical(Lower(u))), a, b)
  {
    MatchesPair(Lexical(u), a, b);
    FoldedLower(u);
    assert Lower(a) == a && Lower(b) == b;
  }

  /** ... and so are the file's own spellings. */
  lemma TextCovered(l: string, a: string, b: string)
    requires Solid(a) && Solid(b) && (l == "/" + a + "/" + b || l == a + "/" + b)
    ensures Leads(Segments(Lexical(l)), a, b)
  {
    if l == "/" + a + "/" + b {
      PlainPair("/", a, b);
    } else {
      assert l == "" + a + "/" + b;
      PlainPair("", a, b);
    }
  }

  lemma PlainPair(front: string, a: string, b: string)
    requires Solid(a) && Solid(b) && (front == "" || front == "/")
    ensures Segments(Lexical(front + a + "/" + b)) == [a, b]
  {
    var p := front + a + "/" + b;
    PairUnder(front, a, b);
    SegmentsLexical(p);
    ResolveFixed([a, b], Rooted(p));
  }

  lemma PairText(a: string, b: string)
    requires Solid(a) && Solid(b)
    ensures Lower("/" + a + "/" + b) == "/" + a + "/" + b && Lower(a + "/" + b) == a + "/" + b
    ensures TrimSlashes("/" + a + "/" + b) == a + "/" + b
  {
    SolidSegments(a);
    SolidSegments(b);
    LowerAppend(a + "/", b);
    LowerAppend(a, "/");
    LowerAppend("/", a + "/" + b);
    assert "/" + (a + "/" + b) == "/" + a + "/" + b;
    assert Lower("/") == "/";
    assert ("/" + a + "/" + b)[1..] == a + "/" + b;
    assert (a + "/" + b)[0] == a[0] && a[0] in a;
  }

  lemma FileHitExact(u: string, a: string, b: string, alias: Option<string>)
    requires Solid(a) && Solid(b)
    ensures FileHit(u, Lower(u), Lexical(u), Lexical(Lower(u)), "/" + a + "/" + b, alias)
       <==> Leads(Segments(Lexical(Lower(u))), a, b)
            || (alias.Some? && MatchesNormalized(Lexical(Lower(u)), alias.value))
  {
    var l, r, trimmed := Lower(u), "/" + a + "/" + b, a + "/" + b;
    PairText(a, b);
    EqLower(u, r);
    EqLower(u, trimmed);
    EqLower(l, trimmed);
    LowerTwice(u);
    if MatchesNormalized(Lexical(u), r) { UpperCovered(u, a, b); }
    if l == r || l == trimmed { TextCovered(l, a, b); }
    MatchesPair(Lexical(l), a, b);
  }

  lemma EtcIsSolid(i: nat)
    requires i < 3
    ensures Solid("etc") && Solid(ETC_NAMES[i]) && RESERVED_ABS_FILES[i] == "/" + "etc" + "/" + ETC_NAMES[i]
    ensures "/etc/" + ETC_NAMES[i] == "/" + "etc" + "/" + ETC_NAMES[i]
    ensures "etc/" + ETC_NAMES[i] == "etc" + "/" + ETC_NAMES[i]
  {
  }

  lemma EtcExact(u: string, i: nat, alias: Option<string>)
    requires i < 3
    ensures FileHit(u, Lower(u), Lexical(u), Lexical(Lower(u)), RESERVED_ABS_FILES[i], alias)
       <==> EtcFile(Lexical(Lower(u)), ETC_NAMES[i])
            || (alias.Some? && MatchesNormalized(Lexical(Lower(u)), alias.value))
  {
    EtcIsSolid(i);
    FileHitExact(u, "etc", ETC_NAMES[i], alias);
    LexicalBeneath(Lower(u), "etc", ETC_NAMES[i]);
  }

  // ---- The home directories add nothing ----------------------------------------------------

  /** A pattern that ends in a plain name asks for that name. */
  lemma PatternEnds(front: string, name: string)
    requires IsDirName(name)
    ensures var want := Segments(NormalizePattern(front + "/" + name)); want != [] && want[|want| - 1] == name
  {
    var p := front + "/" + name;
    NoGlob(front, name);
    SegmentsAppend(front, name);
    OneSegment(name);
    SegmentsLexical(p);
    ResolveSnoc(Segments(front), name, Rooted(p));
  }

  lemma LastWanted(f: string, pattern: string, name: string)
    requires SegmentPrefixMatch(f, pattern) && name != "*"
    requires Segments(pattern) != [] && Segments(pattern)[|Segments(pattern)| - 1] == name
    ensures name in Segments(f)
  {
    var n := |Segments(pattern)| - 1;
    assert Segments(f)[n] == Segments(pattern)[n];
  }

  lemma MatchedName(f: string, front: string, name: string)
    requires IsDirName(name) && MatchesNormalized(f, front + "/" + name)
    ensures name in Segments(f)
  {
    PatternEnds(front, name);
    LastWanted(f, NormalizePattern(front + "/" + name), name);
  }

  /** A folded component was a component. */
  lemma FoldedName(s: string, name: string)
    requires name in Segments(Lexical(s)) && name != ".."
    ensures name in Split(s, '/')
  {
    SegmentsLexical(s);
    ResolveInside(Segments(s), Rooted(s));
  }

  lemma LowerName(u: string, name: string)
    requires name in Split(u, '/') && Lower(name) == name
    ensures name in Split(Lower(u), '/')
  {
    SplitLower(u);
    var i :| 0 <= i < |Split(u, '/')| && Split(u, '/')[i] == name;
    assert LowerAll(Split(u, '/'))[i] == name;
  }

  lemma HomeDirNamed(u: string, home: string, name: string)
    requires IsDirName(name) && HomeDirHit(u, Lexical(u), Lexical(Lower(u)), home + "/" + name)
    ensures name in Split(Lower(u), '/')
  {
    LowerTail(home, name);
    assert Lower(name) == name;
    if MatchesNormalized(Lexical(u), home + "/" + name) {
      MatchedName(Lexical(u), home, name);
      FoldedName(u, name);
      LowerName(u, name);
    } else if MatchesNormalized(Lexical(Lower(u)), Lower(home + "/" + name)) {
      MatchedName(Lexical(Lower(u)), Lower(home), name);
      FoldedName(Lower(u), name);
    } else {
      assert Lower(u) == Lower(home) + "/" + name;
      SplitEnds(Lower(home), name);
    }
  }

  lemma SplitEnds(front: string, name: string)
    requires '/' !in name
    ensures Split(front + "/" + name, '/') == Split(front, '/') + [name]
  {
    SplitAppend(front, name, '/');
    SplitNone(name, '/');
  }

  lemma FileEqual(u: string, file: string)
    requires HomeFileHit(u, Lower(u), file)
    ensures Lower(u) == Lower(file)
  {
    LowerTwice(u);
    LowerTwice(file);
  }

  lemma HomeKeys(u: string, home: string)
    requires HomeFileHit(u, Lower(u), home + "/" + RESERVED_AWS_DIR + "/" + RESERVED_AWS_FILE)
    ensures HasKeys(Split(Lower(u), '/'))
  {
    var h := Lower(home);
    FileEqual(u, home + "/" + RESERVED_AWS_DIR + "/" + RESERVED_AWS_FILE);
    NamesAreLower();
    LowerTail(home, ".aws");
    LowerTail(home + "/" + ".aws", "credentials");
    SplitEnds(h + "/" + ".aws", "credentials");
    SplitEnds(h, ".aws");
    var p, n := Split(Lower(u), '/'), |Split(h, '/')|;
    assert p == Split(h, '/') + [".aws"] + ["credentials"];
    assert p[n] == ".aws" && p[n + 1] == "credentials" && KeysAt(p, n, n + 1);
  }

  lemma HomeEnv(u: string, home: string)
    requires HomeFileHit(u, Lower(u), home + "/" + RESERVED_ENV)
    ensures ".env" in Split(Lower(u), '/')
  {
    FileEqual(u, home + "/" + RESERVED_ENV);
    LowerTail(home, ".env");
    SplitEnds(Lower(home), ".env");
  }

  lemma NamedIn(p: seq<string>, n: string)
    requires n in p && SecretName(n)
    ensures HasName(p)
  {
    var i :| 0 <= i < |p| && p[i] == n;
  }

  /** Whatever lies in a reserved place of a home has a reserved component. */
  lemma HomeIsNamed(u: string, home: string)
    requires HomeHit(u, Lower(u), Lexical(u), Lexical(Lower(u)), home)
    ensures HasName(Split(Lower(u), '/')) || HasKeys(Split(Lower(u), '/'))
  {
    var p := Split(Lower(u), '/');
    DirNamesAreNames();
    if HomeDirHit(u, Lexical(u), Lexical(Lower(u)), home + "/" + RESERVED_DIR_NAMES[0]) {
      HomeDirNamed(u, home, RESERVED_DIR_NAMES[0]);
      NamedIn(p, ".ssh");
    } else if HomeDirHit(u, Lexical(u), Lexical(Lower(u)), home + "/" + RESERVED_DIR_NAMES[1]) {
      HomeDirNamed(u, home, RESERVED_DIR_NAMES[1]);
      NamedIn(p, ".gnupg");
    } else if HomeFileHit(u, Lower(u), home + "/" + RESERVED_AWS_DIR + "/" + RESERVED_AWS_FILE) {
      HomeKeys(u, home);
    } else {
      HomeEnv(u, home);
      NamedIn(p, ".env");
    }
  }

  // ---- The reserved set, exactly -----------------------------------------------------------

  lemma LastIsSegment(segs: seq<string>)
    ensures LastHit(segs, LowerMarker) ==> SegmentHit(segs, LowerMarker)
  {
  }

  /** As many resolved aliases as reserved files: one per file, some perhaps unresolved. */
  predicate HostOk(w: World) { |w.aliases| == 3 }

  lemma EtcHitExact(u: string, w: World)
    requires HostOk(w)
    ensures (exists i :: 0 <= i < Zipped(w)
                         && FileHit(u, Lower(u), Lexical(u), Lexical(Lower(u)), RESERVED_ABS_FILES[i], w.aliases[i]))
       <==> (exists i :: 0 <= i < 3 && EtcFile(Lexical(Lower(u)), ETC_NAMES[i]))
            || (exists i :: 0 <= i < 3 && w.aliases[i].Some?
                            && MatchesNormalized(Lexical(Lower(u)), w.aliases[i].value))
  {
    forall i | 0 <= i < 3
      ensures FileHit(u, Lower(u), Lexical(u), Lexical(Lower(u)), RESERVED_ABS_FILES[i], w.aliases[i])
         <==> EtcFile(Lexical(Lower(u)), ETC_NAMES[i])
              || (w.aliases[i].Some? && MatchesNormalized(Lexical(Lower(u)), w.aliases[i].value))
    {
      EtcExact(u, i, w.aliases[i]);
    }
  }

  /** A text is reserved exactly by a reserved component, a file under `/etc`, or a resolved alias of one. */
  lemma ReservedExact(s: string, w: World)
    requires HostOk(w)
    ensures ReferenceMatches(s, w) <==> IsReserved(s) || AliasHit(s, w)
  {
    var u := Replace(s, '\\', '/');
    EtcHitExact(u, w);
    SegmentHitExact(u);
    LastIsSegment(Segments(u));
    forall i | 0 <= i < |w.homes| && HomeHit(u, Lower(u), Lexical(u), Lexical(Lower(u)), w.homes[i])
      ensures HasName(Components(s)) || HasKeys(Components(s))
    {
      HomeIsNamed(u, w.homes[i]);
    }
  }

  // ---- The entry points --------------------------------------------------------------------

  /** The folded form of a text without NUL, as the host's normalization reads it, is reserved. */
  ghost predicate Reads(path: string, w: World) {
    path != "" && NUL !in path && (IsReserved(Lexical(Nfkc(path, w.env))) || AliasHit(Lexical(Nfkc(path, w.env)), w))
  }

  lemma LexicalHitExact(path: string, w: World)
    requires NfkcOk(w.env) && AliasesSafe(w) && HostOk(w) && path != "" && NUL !in path
    ensures LexicalHit(Nfkc(path, w.env), w) <==> Reads(path, w)
  {
    LexicalHitAgrees(Nfkc(path, w.env), w);
    ReservedExact(Lexical(Nfkc(path, w.env)), w);
  }

  /** A reserved text is secret and denied on every host. */
  lemma ReservedIsSecret(path: string, w: World)
    requires NfkcOk(w.env) && AliasesSafe(w) && HostOk(w) && Reads(path, w)
    ensures IsSecretPath(path, w) && OverlayDenies(path, w) != Clear
  {
    LexicalHitExact(path, w);
    if Normalize(path, w.env).Ok? { SharedCheck(path, Normalize(path, w.env).text, w); }
  }

  /** ... and so is one whose normal form is reserved, or that has none. */
  lemma NormalIsSecret(path: string, w: World)
    requires NfkcOk(w.env) && AliasesSafe(w) && HostOk(w) && path != "" && NUL !in path
    requires Normalize(path, w.env).Err? || Reads(Normalize(path, w.env).text, w)
    ensures IsSecretPath(path, w) && OverlayDenies(path, w) != Clear
  {
    if Normalize(path, w.env).Ok? {
      var n := Normalize(path, w.env).text;
      LexicalHitExact(n, w);
      SharedCheck(path, n, w);
    }
  }

  /** The host resolves nothing: no symbolic links to follow, no aliases. */
  ghost predicate Unresolving(w: World) {
    HostOk(w) && (forall s :: w.resolve(s).None?) && forall i :: 0 <= i < 3 ==> w.aliases[i].None?
  }

  lemma AfterNormalizeExact(path: string, w: World)
    requires NfkcOk(w.env) && Unresolving(w)
    ensures ReservedAfterNormalize(path, w) <==>
              path != "" && NUL !in path && IsReserved(Lexical(Nfkc(path, w.env)))
  {
    assert AliasesSafe(w);
    if path != "" && NUL !in path { LexicalHitExact(path, w); }
  }

  /**
   On a host that resolves nothing the overlay's set is exactly this: the folded text
   is reserved, or its normal form is, or it has no normal form.
   */
  lemma SecretExact(path: string, w: World)
    requires NfkcOk(w.env) && Unresolving(w) && path != "" && NUL !in path
    ensures IsSecretPath(path, w) <==>
              || IsReserved(Lexical(Nfkc(path, w.env)))
              || (match Normalize(path, w.env)
                  case Err(_) => true
                  case Ok(n) => n != "" && NUL !in n && IsReserved(Lexical(Nfkc(n, w.env))))
  {
    AfterNormalizeExact(path, w);
    if Normalize(path, w.env).Ok? { AfterNormalizeExact(Normalize(path, w.env).text, w); }
  }

  // ---- In the words of the documentation ---------------------------------------------------

  /** Folding keeps the components of a text without `..`. */
  lemma PlainFolds(path: string)
    requires ".." !in Segments(path)
    ensures Segments(Lexical(path)) == Segments(path)
  {
    SegmentsLexical(path);
    ResolveFixed(Segments(path), Rooted(path));
  }

  lemma NoBackslash(s: string)
    requires '\\' !in s
    ensures Replace(s, '\\', '/') == s
  {
    forall i | 0 <= i < |s| ensures s[i] != '\\' { assert s[i] in s; }
  }

  /** A component of the text with a reserved name makes it secret on every host, whatever stands around it. */
  lemma SecretComponent(path: string, name: string, w: World)
    requires NfkcOk(w.env) && AliasesSafe(w) && HostOk(w) && IsAscii(path) && NUL !in path
    requires name in Split(path, '/') && SecretName(Lower(name)) && ".." !in Segments(path) && '\\' !in path
    ensures IsSecretPath(path, w) && OverlayDenies(path, w) != Clear
  {
    var f := Lexical(path);
    PlainFolds(path);
    NameNotBlank(Lower(name));
    LowerBlank(name);
    ProperHolds(Split(path, '/'), name);
    assert name in Segments(f);
    FoldedBackslash(path);
    NoBackslash(f);
    ProperHolds(Split(f, '/'), name);
    SplitLower(f);
    var i :| 0 <= i < |Split(f, '/')| && Split(f, '/')[i] == name;
    assert LowerAll(Split(f, '/'))[i] == Lower(name);
    NamedIn(Components(f), Lower(name));
    if path == "" { SplitNone("", '/'); }
    ReservedIsSecret(path, w);
  }

  /** Folding brings no backslash in. */
  lemma FoldedBackslash(path: string)
    requires '\\' !in path && ".." !in Segments(path)
    ensures '\\' !in Lexical(path)
  {
    var segs := Segments(path);
    ResolveFixed(segs, Rooted(path));
    forall i | 0 <= i < |segs| ensures '\\' !in segs[i] {
      var k :| 0 <= k < |Split(path, '/')| && Split(path, '/')[k] == segs[i];
      PieceLacks(path, k, '\\');
    }
    JoinLacks(segs, '\\');
  }

  lemma {:induction false} PieceLacks(s: string, k: nat, c: char)
    requires k < |Split(s, '/')| && c !in s && c != '/'
    ensures c !in Split(s, '/')[k]
  {
    if s != [] {
      assert s[0] in s && forall i :: 0 <= i < |s[1..]| ==> s[1..][i] == s[i + 1];
      if s[0] == '/' {
        if k > 0 { PieceLacks(s[1..], k - 1, c); }
      } else {
        PieceLacks(s[1..], k, c);
      }
    }
  }

  lemma {:induction false} JoinLacks(parts: seq<string>, c: char)
    requires c != '/' && forall i :: 0 <= i < |parts| ==> c !in parts[i]
    ensures c !in Join(parts, '/')
  {
    if |parts| > 1 { JoinLacks(parts[1..], c); }
  }
}
