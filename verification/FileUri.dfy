/**
 What a `file:` URI converts to, stated on the text of the URI: the path it names,
 none for a foreign authority or a share, and what normalization makes of it.
 */
module FileUri {
  import opened Options
  import opened Bytes
  import opened Utf8
  import opened Text
  import opened Percent
  import opened BoundedDecode
  import opened FsArgument

  /** `file:` in any case. */
  predicate IsScheme(s: string) { |s| == 5 && Lower(s) == "file:" }

  /** No query, no fragment, no backslash. */
  predicate Clean(s: string) { '?' !in s && '#' !in s && '\\' !in s }

  predicate Tight(s: string) { s != "" && !IsWhitespace(s[0]) && !IsWhitespace(s[|s| - 1]) }

  predicate NoTrailingSpace(s: string) { s == "" || !IsWhitespace(s[|s| - 1]) }

  /** An absolute path that is no share: one leading '/'. */
  predicate OneSlash(p: string) { p != "" && p[0] == '/' && (|p| == 1 || p[1] != '/') }

  // ---- Getting past the scheme --------------------------------------------------------------

  lemma TrimTight(s: string)
    requires Tight(s)
    ensures Trim(s) == s
  {
  }

  lemma SchemeStarts(sch: string, rest: string)
    requires IsScheme(sch)
    ensures StartsWithFileScheme(sch + rest) && (sch + rest)[5..] == rest
  {
    assert forall i :: 0 <= i < 5 ==> LowerChar(sch[i]) == "file:"[i];
  }

  lemma StripClean(s: string)
    requires Clean(s)
    ensures StripQueryFragment(s) == s && Replace(s, '\\', '/') == s
  {
    assert s[..|s|] == s;
    forall i | 0 <= i < |s| ensures s[i] != '\\' { assert s[i] in s; }
  }

  /** The conversion past the scheme. */
  function Converted(rest: string, e: Env): Option<string> {
    if StartsWith(rest, "//") then AuthorityPath(rest[2..], e)
    else if StartsWith(rest, "/") || LooksLikeWindowsAbs(rest) then Some(rest)
    else if rest == "" then None
    else Some(Lexical("/" + rest))
  }

  lemma SchemeTight(sch: string, rest: string)
    requires IsScheme(sch) && NoTrailingSpace(rest)
    ensures Tight(sch + rest)
  {
    assert forall i :: 0 <= i < 5 ==> LowerChar(sch[i]) == "file:"[i];
    assert (sch + rest)[0] == sch[0];
    assert (sch + rest)[|sch + rest| - 1] == if rest == "" then sch[4] else rest[|rest| - 1];
  }

  lemma PastScheme(sch: string, rest: string, e: Env)
    requires IsScheme(sch) && Clean(rest) && NoTrailingSpace(rest)
    ensures FileUriToFsPath(sch + rest, e) == Converted(rest, e)
  {
    SchemeTight(sch, rest);
    TrimTight(sch + rest);
    SchemeStarts(sch, rest);
    StripClean(rest);
  }

  // ---- What the forms convert to ---------------------------------------------------------------

  lemma CleanAppend(a: string, b: string)
    requires Clean(a) && Clean(b)
    ensures Clean(a + b)
  {
  }

  lemma OneSlashStarts(p: string)
    requires OneSlash(p)
    ensures StartsWith(p, "/") && !StartsWith(p, "//")
  {
    if |p| > 1 { assert p[..2][1] == p[1]; }
  }

  lemma BehindSlashes(after: string)
    ensures StartsWith("//" + after, "//") && ("//" + after)[2..] == after
    ensures Clean(after) ==> Clean("//" + after)
    ensures after != "" && NoTrailingSpace(after) ==> NoTrailingSpace("//" + after)
  {
  }

  /** `file:/path` is the path. */
  lemma SlashForm(sch: string, p: string, e: Env)
    requires IsScheme(sch) && OneSlash(p) && Clean(p) && NoTrailingSpace(p)
    ensures FileUriToFsPath(sch + p, e) == Some(p)
  {
    PastScheme(sch, p, e);
    OneSlashStarts(p);
  }

  /** `file:///path` is the path. */
  lemma EmptyAuthorityForm(sch: string, p: string, e: Env)
    requires IsScheme(sch) && OneSlash(p) && Clean(p) && NoTrailingSpace(p)
    ensures FileUriToFsPath(sch + ("//" + p), e) == Some(p)
  {
    BehindSlashes(p);
    OneSlashStarts(p);
    PastScheme(sch, "//" + p, e);
  }

  lemma AuthoritySplit(a: string, p: string)
    requires '/' !in a && (p == "" || p[0] == '/')
    ensures Find(a + p, '/') == |a| && (a + p)[..|a|] == a && (a + p)[|a|..] == p
  {
    assert (a + p)[..|a|] == a;
    if p == "" { assert a + p == a; } else { FindPast(a + p, a, '/'); }
  }

  predicate IsHost(a: string) { a != "" && '/' !in a && Clean(a) }

  lemma HostRest(sch: string, a: string, p: string, e: Env)
    requires IsScheme(sch) && IsHost(a) && (p == "" || p[0] == '/') && Clean(p) && NoTrailingSpace(a + p)
    ensures FileUriToFsPath(sch + ("//" + (a + p)), e)
         == if !IsLocalAuthority(a, e) || p == "" || StartsWith(p, "//") then None else Some(p)
  {
    var after := a + p;
    CleanAppend(a, p);
    BehindSlashes(after);
    PastScheme(sch, "//" + after, e);
    assert after[0] == a[0] && a[0] in a;
    AuthoritySplit(a, p);
    StripClean(p);
  }

  /** Behind a local authority the path is the path. */
  lemma LocalAuthorityForm(sch: string, a: string, p: string, e: Env)
    requires IsScheme(sch) && IsHost(a) && IsLocalAuthority(a, e) && OneSlash(p) && Clean(p) && NoTrailingSpace(p)
    ensures FileUriToFsPath(sch + ("//" + (a + p)), e) == Some(p)
  {
    assert (a + p)[|a + p| - 1] == p[|p| - 1];
    HostRest(sch, a, p, e);
    if |p| > 1 { assert p[..2][1] == p[1]; }
  }

  /** Any other host is refused, whatever follows it. */
  lemma ForeignAuthorityRefused(sch: string, a: string, p: string, e: Env)
    requires IsScheme(sch) && IsHost(a) && !IsLocalAuthority(a, e) && (p == "" || p[0] == '/') && Clean(p)
    requires NoTrailingSpace(a + p)
    ensures FileUriToFsPath(sch + ("//" + (a + p)), e) == None
  {
    HostRest(sch, a, p, e);
  }

  /** A share is refused behind an empty authority and behind a local one. */
  lemma ShareRefused(sch: string, a: string, p: string, e: Env)
    requires IsScheme(sch) && (a == "" || IsHost(a)) && StartsWith(p, "//") && Clean(p) && NoTrailingSpace(p)
    ensures FileUriToFsPath(sch + ("//" + (a + p)), e) == None
  {
    assert (a + p)[|a + p| - 1] == p[|p| - 1];
    if a == "" {
      assert a + p == p;
      BehindSlashes(p);
      PastScheme(sch, "//" + p, e);
      assert p[..2] == "//" && p[..1] == "/" by { assert p[0] == p[..2][0]; }
    } else {
      HostRest(sch, a, p, e);
    }
  }

  /** Without a slash in front, the components are resolved from the root. */
  lemma RelativeForm(sch: string, rest: string, e: Env)
    requires IsScheme(sch) && rest != "" && rest[0] != '/' && !LooksLikeWindowsAbs(rest)
    requires Clean(rest) && NoTrailingSpace(rest)
    ensures FileUriToFsPath(sch + rest, e) == Some("/" + Join(Resolve(Segments(rest), true), '/'))
  {
    PastScheme(sch, rest, e);
    RootSegments(rest);
    assert rest[..1][0] == rest[0];
    assert |rest| >= 2 ==> rest[..2][0] == rest[0];
  }

  /** A drive path is the path. */
  lemma DriveForm(sch: string, rest: string, e: Env)
    requires IsScheme(sch) && LooksLikeWindowsAbs(rest) && Clean(rest) && NoTrailingSpace(rest)
    ensures FileUriToFsPath(sch + rest, e) == Some(rest)
  {
    PastScheme(sch, rest, e);
    assert rest[..2][0] == rest[0];
  }

  /** A backslash is a separator: it converts as a slash in its place. */
  lemma BackslashIsSlash(sch: string, rest: string, e: Env)
    requires IsScheme(sch) && '?' !in rest && '#' !in rest && NoTrailingSpace(rest)
    ensures FileUriToFsPath(sch + rest, e) == FileUriToFsPath(sch + Replace(rest, '\\', '/'), e)
  {
    var slashed := Replace(rest, '\\', '/');
    SlashedClean(rest, slashed);
    PastScheme(sch, slashed, e);
    SchemeTight(sch, rest);
    TrimTight(sch + rest);
    SchemeStarts(sch, rest);
    assert rest[..|rest|] == rest;
  }

  lemma SlashedClean(rest: string, slashed: string)
    requires '?' !in rest && '#' !in rest && NoTrailingSpace(rest) && slashed == Replace(rest, '\\', '/')
    ensures Clean(slashed) && NoTrailingSpace(slashed)
  {
    forall c | c in slashed ensures c != '?' && c != '#' && c != '\\' {
      var i :| 0 <= i < |slashed| && slashed[i] == c;
      assert rest[i] in rest;
    }
  }

  /** A query or a fragment is cut off, whatever it holds. */
  lemma QueryDropped(sch: string, rest: string, q: string, e: Env)
    requires IsScheme(sch) && Clean(rest) && NoTrailingSpace(rest) && q != "" && (q[0] == '?' || q[0] == '#')
    ensures FileUriToFsPath(sch + (rest + q), e) == FileUriToFsPath(sch + rest, e)
  {
    var t := TrimQuery(sch, rest, q);
    PastScheme(sch, rest, e);
    CutAt(t, rest);
    StripClean(rest);
    SchemeStarts(sch, t);
  }

  /** What trimming leaves of the URI: at least the first character of the query. */
  lemma TrimQuery(sch: string, rest: string, q: string) returns (t: string)
    requires IsScheme(sch) && q != "" && !IsWhitespace(q[0])
    ensures Trim(sch + (rest + q)) == sch + t && |t| > |rest| && t[..|rest|] == rest && t[|rest|] == q[0]
  {
    var uri := sch + (rest + q);
    SchemeTight(sch, "");
    assert sch + "" == sch && uri[0] == sch[0] && uri[5 + |rest|] == q[0];
    TrimEndReaches(uri, 5 + |rest|);
    EndInside(uri);
    t := TrimEnd(uri)[5..];
    assert TrimEnd(uri) == sch + t;
  }

  lemma {:induction false} TrimEndReaches(s: string, k: nat)
    requires k < |s| && !IsWhitespace(s[k])
    ensures |TrimEnd(s)| > k
  {
    if IsWhitespace(s[|s| - 1]) {
      assert k < |s| - 1;
      TrimEndReaches(s[..|s| - 1], k);
    }
  }

  lemma CutAt(s: string, rest: string)
    requires |s| > |rest| && s[..|rest|] == rest && Clean(rest) && (s[|rest|] == '?' || s[|rest|] == '#')
    ensures StripQueryFragment(s) == rest
  {
    FindPast(s, rest, '?');
    FindPast(s, rest, '#');
  }

  lemma FindPast(s: string, rest: string, c: char)
    requires |s| > |rest| && s[..|rest|] == rest && c !in rest
    ensures Find(s, c) >= |rest| && (s[|rest|] == c ==> Find(s, c) == |rest|)
  {
    var n := Find(s, c);
    assert forall i :: 0 <= i < |rest| ==> s[i] == rest[i] && s[i] != c;
    assert forall i :: 0 <= i < n ==> s[i] == s[..n][i] && s[i] != c;
  }

  // ---- Through normalization -------------------------------------------------------------------

  /** A suffix of a stable text is stable. */
  lemma StableSuffix(s: string, k: nat)
    requires Stable(s) && k <= |s|
    ensures Stable(s[k..])
  {
    var t := s[k..];
    forall i: nat ensures !EscapeAt(t, i) { assert !EscapeAt(s, k + i); }
    forall i | 0 <= i < |t| ensures !IsSplittingControl(t[i]) && t[i] in s { assert t[i] == s[k + i]; }
  }

  lemma NormalizeFileUri(raw: string, uri: string, p: string, e: Env)
    requires Bounded(raw) == Ok(uri) && uri != "" && IsAscii(uri) && FileUriToFsPath(uri, e) == Some(p)
    requires Bounded(p) == Ok(p) && IsAscii(p)
    ensures Normalize(raw, e) == Ok(p)
  {
    assert raw != "" by { if raw == "" { EmptyBounded(); } }
  }

  lemma EmptyBounded()
    ensures Bounded("") == Ok("")
  {
    StableIsFixed("");
  }

  /**
   Whatever layers of percent-encoding it came in, a text that decodes to one of the
   absolute forms normalizes to the path it names.
   */
  lemma NormalizeAbsolute(raw: string, sch: string, a: string, p: string, e: Env)
    requires IsScheme(sch) && OneSlash(p) && Clean(p) && NoTrailingSpace(p) && IsAscii(a) && IsAscii(p)
    requires a == "" || (IsHost(a) && IsLocalAuthority(a, e))
    requires Bounded(raw) == Ok(sch + ("//" + (a + p))) || (a == "" && Bounded(raw) == Ok(sch + p))
    ensures Normalize(raw, e) == Ok(p)
  {
    var uri := Bounded(raw).text;
    AbsoluteConverts(uri, sch, a, p, e);
    UriEnds(uri, sch, a, p);
    SuffixNormal(raw, uri, p, e);
  }

  lemma SuffixNormal(raw: string, uri: string, p: string, e: Env)
    requires Bounded(raw) == Ok(uri) && uri != "" && IsAscii(uri) && FileUriToFsPath(uri, e) == Some(p)
    requires |p| <= |uri| && uri[|uri| - |p|..] == p
    ensures Normalize(raw, e) == Ok(p)
  {
    SuffixFixed(raw, uri, p);
    NormalizeFileUri(raw, uri, p, e);
  }

  lemma SuffixFixed(raw: string, s: string, p: string)
    requires Bounded(raw) == Ok(s) && IsAscii(s) && |p| <= |s| && s[|s| - |p|..] == p
    ensures Bounded(p) == Ok(p) && IsAscii(p)
  {
    DecodedStable(raw, s);
    StableSuffix(s, |s| - |p|);
    StableIsFixed(p);
  }

  lemma DecodedStable(raw: string, uri: string)
    requires Bounded(raw) == Ok(uri)
    ensures Stable(uri)
  {
    BoundedStable(raw);
  }

  lemma AbsoluteConverts(uri: string, sch: string, a: string, p: string, e: Env)
    requires IsScheme(sch) && OneSlash(p) && Clean(p) && NoTrailingSpace(p)
    requires a == "" || (IsHost(a) && IsLocalAuthority(a, e))
    requires uri == sch + ("//" + (a + p)) || (a == "" && uri == sch + p)
    ensures FileUriToFsPath(uri, e) == Some(p)
  {
    if a != "" {
      LocalAuthorityForm(sch, a, p, e);
    } else if uri == sch + p {
      SlashForm(sch, p, e);
    } else {
      assert a + p == p;
      EmptyAuthorityForm(sch, p, e);
    }
  }

  lemma UriEnds(uri: string, sch: string, a: string, p: string)
    requires IsScheme(sch) && IsAscii(a) && IsAscii(p)
    requires uri == sch + ("//" + (a + p)) || uri == sch + p
    ensures |p| <= |uri| && uri[|uri| - |p|..] == p && IsAscii(uri) && uri != ""
  {
    SchemeAscii(sch);
  }

  lemma SchemeAscii(sch: string)
    requires IsScheme(sch)
    ensures IsAscii(sch)
  {
    forall i | 0 <= i < 5 ensures (sch[i] as int) < 0x80 { assert LowerChar(sch[i]) == "file:"[i]; }
  }

  // ---- The relative form through normalization ----------------------------------------------------

  lemma {:induction false} FirstPiece(s: string, c: char)
    ensures Split(s, c)[0] <= s
  {
    if s != [] { FirstPiece(s[1..], c); }
  }

  lemma {:induction false} PieceEscape(s: string, k: nat)
    requires k < |Split(s, '/')| && HasEscape(Split(s, '/')[k])
    ensures HasEscape(s)
  {
    EmptyHasNoEscape();
    if s != [] {
      var tail := s[1..];
      if s[0] == '/' {
        PieceEscape(tail, k - 1);
        EscapeBehind(s);
      } else if k > 0 {
        PieceEscape(tail, k);
        EscapeBehind(s);
      } else {
        FirstPiece(s, '/');
        var i: nat :| EscapeAt(Split(s, '/')[0], i);
        assert EscapeAt(s, i);
      }
    }
  }

  lemma EmptyHasNoEscape()
    ensures !HasEscape("")
  {
    forall i: nat ensures !EscapeAt("", i) { }
  }

  lemma EscapeBehind(s: string)
    requires s != [] && HasEscape(s[1..])
    ensures HasEscape(s)
  {
    var i: nat :| EscapeAt(s[1..], i);
    assert EscapeAt(s, i + 1);
  }

  lemma {:induction false} JoinNoEscape(parts: seq<string>)
    requires forall i :: 0 <= i < |parts| ==> !HasEscape(parts[i])
    ensures !HasEscape(Join(parts, '/'))
  {
    if parts == [] {
      EmptyHasNoEscape();
    } else if |parts| > 1 {
      JoinNoEscape(parts[1..]);
      SlashNoEscape(parts[0], Join(parts[1..], '/'));
    }
  }

  lemma SlashNoEscape(a: string, b: string)
    requires !HasEscape(a) && !HasEscape(b)
    ensures !HasEscape(a + "/" + b)
  {
    DecodeSlash(a, b);
    DecodeFixed(a);
    DecodeFixed(b);
    DecodeFixed(a + "/" + b);
  }

  /** What every component of a text keeps of it. */
  ghost predicate Within(s: string, t: string) { forall i :: 0 <= i < |s| ==> s[i] in t }

  lemma {:induction false} PieceWithin(s: string, c: char, k: nat)
    requires k < |Split(s, c)|
    ensures Within(Split(s, c)[k], s)
  {
    if s != [] {
      var pieces := Split(s[1..], c);
      if s[0] == c {
        if k > 0 { PieceWithin(s[1..], c, k - 1); }
      } else {
        PieceWithin(s[1..], c, k);
      }
    }
  }

  lemma {:induction false} JoinWithin(parts: seq<string>, t: string)
    requires forall i :: 0 <= i < |parts| ==> Within(parts[i], t)
    ensures Within(Join(parts, '/'), t + "/")
  {
    if |parts| > 1 { JoinWithin(parts[1..], t); }
  }

  /** The components of a relative text, resolved: no escape and no character the text did not have. */
  lemma ResolvedParts(rest: string, i: nat)
    requires i < |Resolve(Segments(rest), true)|
    ensures HasEscape(Resolve(Segments(rest), true)[i]) ==> HasEscape(rest)
    ensures Within(Resolve(Segments(rest), true)[i], rest)
  {
    ResolveInside(Segments(rest), true);
    var part := Resolve(Segments(rest), true)[i];
    assert part in Split(rest, '/');
    var k :| 0 <= k < |Split(rest, '/')| && Split(rest, '/')[k] == part;
    PieceWithin(rest, '/', k);
    if HasEscape(part) { PieceEscape(rest, k); }
  }

  lemma StableWithin(s: string, t: string)
    requires !HasEscape(s) && Within(s, t + "/") && Stable(t) && IsAscii(t)
    ensures Stable(s) && IsAscii(s)
  {
    forall i | 0 <= i < |s| ensures !IsSplittingControl(s[i]) && s[i] != NUL && (s[i] as int) < 0x80 {
      assert s[i] in t + "/";
      if s[i] != '/' { assert s[i] in t; }
    }
  }

  lemma ResolvedStable(rest: string)
    requires Stable(rest) && IsAscii(rest)
    ensures var f := "/" + Join(Resolve(Segments(rest), true), '/'); Stable(f) && IsAscii(f)
  {
    var out := Resolve(Segments(rest), true);
    forall i | 0 <= i < |out| ensures !HasEscape(out[i]) && Within(out[i], rest) { ResolvedParts(rest, i); }
    JoinNoEscape(out);
    JoinWithin(out, rest);
    var j := Join(out, '/');
    EmptyHasNoEscape();
    SlashNoEscape("", j);
    assert "" + "/" + j == "/" + j;
    assert Within("/" + j, rest + "/");
    StableWithin("/" + j, rest);
  }

  /** ... and so does a text that decodes to the relative form. */
  lemma NormalizeRelative(raw: string, sch: string, rest: string, e: Env)
    requires IsScheme(sch) && rest != "" && rest[0] != '/' && !LooksLikeWindowsAbs(rest)
    requires Clean(rest) && NoTrailingSpace(rest)
    requires IsAscii(rest) && Bounded(raw) == Ok(sch + rest)
    ensures Normalize(raw, e) == Ok("/" + Join(Resolve(Segments(rest), true), '/'))
  {
    var uri := sch + rest;
    DecodedStable(raw, uri);
    RelativeForm(sch, rest, e);
    assert uri[5..] == rest;
    StableSuffix(uri, 5);
    SchemeAscii(sch);
    ResolvedStable(rest);
    StableIsFixed("/" + Join(Resolve(Segments(rest), true), '/'));
    NormalizeFileUri(raw, uri, "/" + Join(Resolve(Segments(rest), true), '/'), e);
  }
}
