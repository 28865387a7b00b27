/**
 Which tokens evaluate code, family by family, stated on the characters of the token;
 which tokens of a launch line the option scan passes over; and what the two say
 together about whole launch lines.
 */
module InlineEval {
  import opened Options
  import opened Utf8
  import opened Text
  import opened FsArgument
  import opened PayloadScan

  // ---- The spellings ----------------------------------------------------------------------

  predicate Letter(c: char) { 'a' <= c <= 'z' || 'A' <= c <= 'Z' }

  predicate LetterOrDigit(c: char) { Letter(c) || '0' <= c <= '9' }

  /** `-c` for a shell: a `c` behind letters none of which takes an operand. */
  ghost predicate ShellSpelling(arg: string) {
    exists k :: 1 <= k < |arg| && arg[0] == '-' && arg[k] == 'c'
                && forall i :: 1 <= i < k ==> Letter(arg[i]) && arg[i] !in "oO"
  }

  predicate EvalWord(arg: string) {
    || arg == "-e" || arg == "--eval" || arg == "--command"
    || StartsWith(arg, "--eval=") || StartsWith(arg, "--command=")
  }

  ghost predicate PythonSpelling(arg: string) {
    EvalWord(arg)
    || exists k :: 1 <= k < |arg| && arg[0] == '-' && arg[k] == 'c'
                   && forall i :: 1 <= i < k ==> Letter(arg[i]) && arg[i] !in "mWXQ"
  }

  predicate NodeSpelling(arg: string) {
    EvalWord(arg) || arg == "-p" || arg == "-pe" || arg == "--print" || StartsWith(arg, "--print=")
  }

  ghost predicate PerlSpelling(arg: string) {
    exists k :: 1 <= k < |arg| && arg[0] == '-' && (arg[k] == 'e' || arg[k] == 'E')
                && forall i :: 1 <= i < k ==> LetterOrDigit(arg[i]) && arg[i] !in "FIMmCDxi"
  }

  ghost predicate RubySpelling(arg: string) {
    exists k :: 1 <= k < |arg| && arg[0] == '-' && arg[k] == 'e'
                && forall i :: 1 <= i < k ==> LetterOrDigit(arg[i]) && arg[i] !in "EKIrSTxiCF"
  }

  /** A dash, a parameter name and perhaps a colon with a value behind it. */
  ghost predicate Spells(arg: string, name: string) {
    name != "" && name[0] != '-' && ':' !in name
    && (arg == "-" + name || StartsWith(arg, "-" + name + ":"))
  }

  /** A name PowerShell takes for one of its evaluating parameters: an alias, or the front of a full name. */
  predicate EvalParameter(p: string) {
    p == "cwa" || p == "ec" || StartsWith("command", p) || StartsWith("commandwithargs", p)
    || StartsWith("encodedcommand", p)
  }

  ghost predicate PowerShellSpelling(arg: string) { exists name :: Spells(arg, name) && EvalParameter(Lower(name)) }

  predicate CmdSpelling(arg: string) { |arg| >= 2 && arg[0] == '/' && arg[1] in "cCkKrR" }

  /** The tokens that evaluate code, for each family. */
  ghost predicate Evaluates(arg: string, family: Option<Family>) {
    match family
    case Some(Shell) => ShellSpelling(arg)
    case Some(PythonFamily) => PythonSpelling(arg)
    case Some(NodeFamily) => NodeSpelling(arg)
    case Some(Perl) => PerlSpelling(arg)
    case Some(Ruby) => RubySpelling(arg)
    case Some(PowerShell) => PowerShellSpelling(arg)
    case Some(Cmd) => CmdSpelling(arg)
    case Some(NpxFamily) => false
    case None => false
  }

  // ---- Clusters ---------------------------------------------------------------------------

  predicate Passes(c: char, stops: string, digits: bool) { c !in stops && (Letter(c) || (digits && LetterOrDigit(c))) }

  ghost predicate HitAt(body: string, k: nat, hits: string, stops: string, digits: bool) {
    k < |body| && body[k] in hits && forall i :: 0 <= i < k ==> Passes(body[i], stops, digits)
  }

  lemma {:induction false} ReachesAt(body: string, hits: string, stops: string, digits: bool) returns (k: nat)
    requires Reaches(body, hits, stops, digits)
    ensures HitAt(body, k, hits, stops, digits)
  {
    if body[0] in hits {
      k := 0;
    } else {
      var j := ReachesAt(body[1..], hits, stops, digits);
      k := j + 1;
      forall i | 0 <= i < k ensures Passes(body[i], stops, digits) {
        if i > 0 { assert body[1..][i - 1] == body[i]; }
      }
    }
  }

  lemma {:induction false} AtReaches(body: string, k: nat, hits: string, stops: string, digits: bool)
    requires HitAt(body, k, hits, stops, digits)
    ensures Reaches(body, hits, stops, digits)
  {
    if k > 0 {
      assert Passes(body[0], stops, digits);
      forall i | 0 <= i < k - 1 ensures Passes(body[1..][i], stops, digits) { assert body[1..][i] == body[i + 1]; }
      AtReaches(body[1..], k - 1, hits, stops, digits);
    }
  }

  /** The same on the whole token. */
  ghost predicate ClusterAt(arg: string, k: nat, hits: string, stops: string, digits: bool) {
    1 <= k < |arg| && arg[0] == '-' && arg[k] in hits && forall i :: 1 <= i < k ==> Passes(arg[i], stops, digits)
  }

  lemma ClusterSpelled(arg: string, hits: string, stops: string, digits: bool) returns (k: nat)
    requires Cluster(arg, hits, stops, digits)
    ensures ClusterAt(arg, k, hits, stops, digits)
  {
    var j := ReachesAt(arg[1..], hits, stops, digits);
    k := j + 1;
    forall i | 1 <= i < k ensures Passes(arg[i], stops, digits) { assert arg[1..][i - 1] == arg[i]; }
  }

  lemma SpelledClusters(arg: string, k: nat, hits: string, stops: string, digits: bool)
    requires ClusterAt(arg, k, hits, stops, digits) && '-' !in hits
    ensures Cluster(arg, hits, stops, digits)
  {
    forall i | 0 <= i < k - 1 ensures Passes(arg[1..][i], stops, digits) { assert arg[1..][i] == arg[i + 1]; }
    AtReaches(arg[1..], k - 1, hits, stops, digits);
    if k > 1 { assert Passes(arg[1], stops, digits); }
  }

  lemma ShellExact(arg: string)
    ensures Cluster(arg, "c", "oO", false) <==> ShellSpelling(arg)
  {
    if Cluster(arg, "c", "oO", false) {
      var k := ClusterSpelled(arg, "c", "oO", false);
      assert arg[k] == 'c';
    }
    if ShellSpelling(arg) {
      var k :| 1 <= k < |arg| && arg[0] == '-' && arg[k] == 'c'
               && forall i :: 1 <= i < k ==> Letter(arg[i]) && arg[i] !in "oO";
      SpelledClusters(arg, k, "c", "oO", false);
    }
  }

  lemma PythonExact(arg: string)
    ensures EvalWord(arg) || Cluster(arg, "c", "mWXQ", false) <==> PythonSpelling(arg)
  {
    if Cluster(arg, "c", "mWXQ", false) {
      var k := ClusterSpelled(arg, "c", "mWXQ", false);
      assert arg[k] == 'c';
    }
    if PythonSpelling(arg) && !EvalWord(arg) {
      var k :| 1 <= k < |arg| && arg[0] == '-' && arg[k] == 'c'
               && forall i :: 1 <= i < k ==> Letter(arg[i]) && arg[i] !in "mWXQ";
      SpelledClusters(arg, k, "c", "mWXQ", false);
    }
  }

  lemma PerlExact(arg: string)
    ensures Cluster(arg, "eE", "FIMmCDxi:=", true) <==> PerlSpelling(arg)
  {
    if Cluster(arg, "eE", "FIMmCDxi:=", true) {
      var k := ClusterSpelled(arg, "eE", "FIMmCDxi:=", true);
      assert arg[k] == 'e' || arg[k] == 'E';
    }
    if PerlSpelling(arg) {
      var k :| 1 <= k < |arg| && arg[0] == '-' && (arg[k] == 'e' || arg[k] == 'E')
               && forall i :: 1 <= i < k ==> LetterOrDigit(arg[i]) && arg[i] !in "FIMmCDxi";
      SpelledClusters(arg, k, "eE", "FIMmCDxi:=", true);
    }
  }

  lemma RubyExact(arg: string)
    ensures Cluster(arg, "e", "EKIrSTxiCF:=", true) <==> RubySpelling(arg)
  {
    if Cluster(arg, "e", "EKIrSTxiCF:=", true) {
      var k := ClusterSpelled(arg, "e", "EKIrSTxiCF:=", true);
      assert arg[k] == 'e';
    }
    if RubySpelling(arg) {
      var k :| 1 <= k < |arg| && arg[0] == '-' && arg[k] == 'e'
               && forall i :: 1 <= i < k ==> LetterOrDigit(arg[i]) && arg[i] !in "EKIrSTxiCF";
      SpelledClusters(arg, k, "e", "EKIrSTxiCF:=", true);
    }
  }

  // ---- Parameters -------------------------------------------------------------------------

  lemma {:induction false} FindFirst(s: string, c: char)
    ensures c !in s[..Find(s, c)] && (Find(s, c) < |s| ==> s[Find(s, c)] == c)
  {
    if s != [] && s[0] != c {
      FindFirst(s[1..], c);
      var n := Find(s[1..], c);
      assert s[..n + 1] == [s[0]] + s[1..][..n];
    }
  }

  lemma {:induction false} FindIs(s: string, c: char, n: nat)
    requires n <= |s| && c !in s[..n] && (n < |s| ==> s[n] == c)
    ensures Find(s, c) == n
  {
    if n > 0 {
      assert s[0] in s[..n];
      assert s[..n] == [s[0]] + s[1..][..n - 1];
      FindIs(s[1..], c, n - 1);
    }
  }

  lemma ParameterSpelled(arg: string) returns (name: string)
    requires Parameter(arg) != ""
    ensures Spells(arg, name) && Parameter(arg) == Lower(name)
  {
    var rest := arg[1..];
    var n := Find(rest, ':');
    FindFirst(rest, ':');
    name := rest[..n];
    if n < |rest| {
      assert arg[..n + 2] == "-" + name + ":";
    } else {
      assert arg == "-" + name;
    }
  }

  lemma ColonSplits(arg: string, name: string)
    requires StartsWith(arg, "-" + name + ":")
    ensures arg[0] == '-' && arg[1..][..|name|] == name && |arg| > |name| + 1 && arg[1..][|name|] == ':'
  {
    var front := "-" + name + ":";
    assert arg == front + arg[|front|..];
    assert arg[1..] == name + (":" + arg[|front|..]);
  }

  lemma SpelledParameter(arg: string, name: string)
    requires Spells(arg, name)
    ensures Parameter(arg) == Lower(name)
  {
    var rest, n := arg[1..], |name|;
    if arg == "-" + name {
      assert rest == name && rest[..n] == name;
    } else {
      ColonSplits(arg, name);
    }
    FindIs(rest, ':', n);
  }

  lemma PowerShellExact(arg: string)
    ensures PowerShellEval(arg) <==> PowerShellSpelling(arg)
  {
    var names := ["command", "commandwithargs", "encodedcommand"];
    forall p
      ensures PrefixOfAny(p, names) <==>
              StartsWith(names[0], p) || StartsWith(names[1], p) || StartsWith(names[2], p)
    {
    }
    if PowerShellEval(arg) { var name := ParameterSpelled(arg); }
    if PowerShellSpelling(arg) {
      var name :| Spells(arg, name) && EvalParameter(Lower(name));
      SpelledParameter(arg, name);
    }
  }

  lemma CmdExact(arg: string)
    ensures CmdEval(arg) <==> CmdSpelling(arg)
  {
  }

  // ---- Every family -----------------------------------------------------------------------

  lemma EvalByTraits(arg: string, t: Traits)
    requires Exclusive(t)
    ensures IsInlineEval(arg, t) <==> Evaluates(arg, FamilyFor(t))
  {
    match FamilyFor(t)
    case Some(Shell) => ShellExact(arg);
    case Some(PythonFamily) => PythonExact(arg);
    case Some(Perl) => PerlExact(arg);
    case Some(Ruby) => RubyExact(arg);
    case Some(PowerShell) => PowerShellExact(arg);
    case Some(Cmd) => CmdExact(arg);
    case Some(NodeFamily) =>
    case Some(NpxFamily) =>
    case None =>
  }

  /** A token evaluates code exactly when it is one of its family's spellings. */
  lemma EvalExact(arg: string, argv0: string)
    ensures IsInlineEval(arg, TraitsOf(argv0)) <==> Evaluates(arg, FamilyOf(argv0))
  {
    TraitsExclusive(argv0);
    EvalByTraits(arg, TraitsOf(argv0));
  }

  // ---- Families by name -------------------------------------------------------------------

  /** A base name with a major version, and perhaps more of one behind a dot. */
  predicate Versioned(s: string, base: string, major: char) {
    s == base + [major] || StartsWith(s, base + [major] + ".")
  }

  ghost predicate NamesFamily(s: string, f: Family) {
    match f
    case PythonFamily =>
      || s in {"python", "pythonw", "py", "pyw", "pypy"}
      || (exists major :: major in "23" && (Versioned(s, "python", major) || Versioned(s, "pypy", major)))
    case NodeFamily => s in {"node", "nodejs"}
    case NpxFamily => s == "npx"
    case Perl => s == "perl" || Versioned(s, "perl", '5')
    case Ruby => exists v :: s == "ruby" + v && forall c :: c in v ==> c in "0123456789."
    case Shell => s in {"sh", "bash", "dash", "ash", "zsh", "ksh", "mksh"}
    case PowerShell => s in {"powershell", "pwsh"}
    case Cmd => s == "cmd"
  }

  lemma PythonNamed(s: string)
    ensures IsPython(s) <==> NamesFamily(s, PythonFamily)
  {
    assert "python" + ['2'] == "python2" && "python" + ['3'] == "python3" && "pypy" + ['2'] == "pypy2"
           && "pypy" + ['3'] == "pypy3";
    assert '2' in "23" && '3' in "23";
    if IsPython(s) {
      assert Versioned(s, "python", '2') || Versioned(s, "python", '3') || Versioned(s, "pypy", '2')
             || Versioned(s, "pypy", '3') || s in {"python", "pythonw", "py", "pyw", "pypy"};
    }
  }

  lemma RubyNamed(s: string)
    ensures IsRuby(s) <==> NamesFamily(s, Ruby)
  {
    if IsRuby(s) {
      var v := s[4..];
      assert s == "ruby" + v;
      forall c | c in v ensures c in "0123456789." {
        var i :| 0 <= i < |v| && v[i] == c;
        assert v[i] == s[i + 4];
      }
    }
    if NamesFamily(s, Ruby) {
      var v :| s == "ruby" + v && forall c :: c in v ==> c in "0123456789.";
      forall i | 4 <= i < |s| ensures '0' <= s[i] <= '9' || s[i] == '.' { assert s[i] == v[i - 4] && v[i - 4] in v; }
    }
  }

  lemma PerlNamed(s: string)
    ensures IsPerl(s) <==> NamesFamily(s, Perl)
  {
    assert "perl" + ['5'] == "perl5";
  }

  predicate Shows(t: Traits, f: Family) {
    match f
    case PythonFamily => t.kind == Some(Python)
    case NodeFamily => t.kind == Some(Node)
    case NpxFamily => t.kind == Some(Npx)
    case Perl => t.perl
    case Ruby => t.ruby
    case Shell => t.shell
    case PowerShell => t.powershell
    case Cmd => t.cmd
  }

  lemma FamilyShows(t: Traits, f: Family)
    requires Exclusive(t)
    ensures FamilyFor(t) == Some(f) <==> Shows(t, f)
  {
  }

  lemma ShownIsNamed(s: string, t: Traits, f: Family)
    requires t == Traits(KindOf(s), IsPerl(s), IsRuby(s), IsShell(s), IsPowerShell(s), s == "cmd")
    ensures Shows(t, f) <==> NamesFamily(s, f)
  {
    match f
    case PythonFamily => PythonNamed(s);
    case Perl => PerlNamed(s);
    case Ruby => RubyNamed(s);
    case _ =>
  }

  /** The family is the one the file name names, and there is one exactly when a family claims the name. */
  lemma FamilyExact(argv0: string, f: Family)
    ensures FamilyOf(argv0) == Some(f) <==> NamesFamily(Stem(argv0), f)
  {
    TraitsExclusive(argv0);
    FamilyShows(TraitsOf(argv0), f);
    ShownIsNamed(Stem(argv0), TraitsOf(argv0), f);
  }

  // ---- The file name ----------------------------------------------------------------------

  /** A name with no separator in it. */
  predicate FileName(s: string) { s != "" && s != "." && s != ".." && '/' !in s && '\\' !in s }

  lemma {:induction false} NameAfter(front: string, name: string)
    requires '/' !in name && '\\' !in name
    requires front == "" || front[|front| - 1] == '\\' || front[|front| - 1] == '/'
    ensures AfterSeparator(front + name) == name
    decreases |name|
  {
    if name == "" {
      assert front + name == front;
    } else {
      var n := |name| - 1;
      var whole := front + name;
      assert name[n] in name;
      assert whole[..|whole| - 1] == front + name[..n] && name == name[..n] + [name[n]];
      NameAfter(front, name[..n]);
    }
  }

  predicate ExeSuffix(s: string) { |s| >= 4 && s[|s| - 4..] == ".exe" }

  function WithoutExe(s: string): string { if ExeSuffix(s) then s[..|s| - 4] else s }

  lemma StemIs(argv0: string, seg: string, name: string)
    requires Segments(argv0) != [] && Segments(argv0)[|Segments(argv0)| - 1] == seg
    requires seg != ".." && AfterSeparator(seg) == name
    ensures Stem(argv0) == WithoutExe(Lower(name))
  {
  }

  /** The stem is the lowered file name without `.exe`, whatever directories stand before it ... */
  lemma StemOfPath(dir: string, name: string)
    requires FileName(name)
    ensures Stem(name) == Stem(dir + "/" + name) == WithoutExe(Lower(name))
  {
    OneSegment(name);
    SegmentsAppend(dir, name);
    NameAfter("", name);
    assert "" + name == name;
    StemIs(name, name, name);
    StemIs(dir + "/" + name, name, name);
  }

  /** ... with either separator. */
  lemma StemOfWindowsPath(dir: string, name: string)
    requires FileName(name) && '/' !in dir
    ensures Stem(dir + "\\" + name) == WithoutExe(Lower(name))
  {
    var path := dir + "\\" + name;
    assert path[|dir|] == '\\';
    OneSegment(path);
    NameAfter(dir + "\\", name);
    StemIs(path, path, name);
  }

  /** The suffix goes whatever its case. */
  lemma ExeGoes(name: string, ext: string)
    requires Lower(ext) == ".exe"
    ensures WithoutExe(Lower(name + ext)) == Lower(name)
  {
    assert Lower(name + ext) == Lower(name) + ".exe";
    assert (Lower(name) + ".exe")[|name|..] == ".exe";
  }

  // ---- The walk over the options ----------------------------------------------------------

  /** A token the scan passes over, and how many tokens with it. */
  ghost predicate PassedOver(a: string, g: Grammar) {
    a != "--" && a != "-" && IsOption(a, g) && !g.module_(a) && (g.operand(a) || !g.ambiguous(a))
  }

  function Width(a: string, g: Grammar): nat { if g.operand(a) then 2 else 1 }

  ghost predicate HopAt(argv: seq<string>, g: Grammar, at: seq<nat>, t: nat)
    requires t + 1 < |at|
  {
    at[t] < |argv| && PassedOver(argv[at[t]], g) && at[t + 1] == at[t] + Width(argv[at[t]], g)
  }

  /** Positions each reached from the one before by passing over an option, with its operand if it takes one. */
  ghost predicate Walk(argv: seq<string>, g: Grammar, at: seq<nat>) {
    at != [] && forall t :: 0 <= t < |at| - 1 ==> HopAt(argv, g, at, t)
  }

  /** What the scan answers where a walk ends. */
  ghost predicate Stops(argv: seq<string>, g: Grammar, p: nat, b: Boundary) {
    if p >= |argv| then b == Missing
    else
      var a := argv[p];
      var behind := if p + 1 < |argv| then Found(p + 1) else Missing;
      if a == "--" then b == behind
      else if a == "-" then b == Missing
      else if !IsOption(a, g) then b == Found(p)
      else if g.module_(a) then b == if ModuleFollows(a) then behind else Found(p)
      else !g.operand(a) && g.ambiguous(a) && b == Ambiguous(a)
  }

  lemma WalkCons(argv: seq<string>, g: Grammar, i: nat, at: seq<nat>)
    requires Walk(argv, g, at) && i < |argv| && PassedOver(argv[i], g) && at[0] == i + Width(argv[i], g)
    ensures Walk(argv, g, [i] + at)
  {
    var all := [i] + at;
    forall t | 0 <= t < |all| - 1 ensures HopAt(argv, g, all, t) {
      if t > 0 { assert HopAt(argv, g, at, t - 1) && all[t] == at[t - 1] && all[t + 1] == at[t]; }
    }
  }

  /** The scan's answer is where its walk stops ... */
  lemma {:induction false} ScanWalks(argv: seq<string>, g: Grammar, i: nat) returns (at: seq<nat>)
    ensures Walk(argv, g, at) && at[0] == i && Stops(argv, g, at[|at| - 1], ScanFrom(argv, g, i))
    decreases |argv| - i
  {
    if i < |argv| && PassedOver(argv[i], g) {
      var rest := ScanWalks(argv, g, i + Width(argv[i], g));
      WalkCons(argv, g, i, rest);
      at := [i] + rest;
    } else {
      at := [i];
    }
  }

  /** ... and whatever walk stops, stops at the scan's answer. */
  lemma {:induction false} WalkDecides(argv: seq<string>, g: Grammar, at: seq<nat>, b: Boundary)
    requires Walk(argv, g, at) && Stops(argv, g, at[|at| - 1], b)
    ensures ScanFrom(argv, g, at[0]) == b
  {
    if |at| > 1 {
      assert HopAt(argv, g, at, 0);
      var rest := at[1..];
      forall t | 0 <= t < |rest| - 1 ensures HopAt(argv, g, rest, t) { assert HopAt(argv, g, at, t + 1); }
      WalkDecides(argv, g, rest, b);
    }
  }

  /** The boundary, without the recursion: the one answer some walk from the first argument stops at. */
  lemma ScanExact(argv: seq<string>, g: Grammar, b: Boundary)
    ensures ScanFrom(argv, g, 1) == b <==>
            exists at :: Walk(argv, g, at) && at[0] == 1 && Stops(argv, g, at[|at| - 1], b)
  {
    var at := ScanWalks(argv, g, 1);
    forall other | Walk(argv, g, other) && other[0] == 1 && Stops(argv, g, other[|other| - 1], b)
      ensures ScanFrom(argv, g, 1) == b
    {
      WalkDecides(argv, g, other, b);
    }
  }

  /** Every position of a walk scans as its start does. */
  lemma {:induction false} WalkShares(argv: seq<string>, g: Grammar, at: seq<nat>, t: nat)
    requires Walk(argv, g, at) && t < |at|
    ensures ScanFrom(argv, g, at[t]) == ScanFrom(argv, g, at[0])
  {
    if t > 0 {
      assert HopAt(argv, g, at, t - 1);
      WalkShares(argv, g, at, t - 1);
    }
  }

  // ---- Whole launch lines -----------------------------------------------------------------

  lemma WordIsNoModule(arg: string)
    requires EvalWord(arg)
    ensures !NamesModule(arg)
  {
    if arg == "-e" {
      assert arg[1..] == "e" && "e"[1..] == "";
      assert !Reaches("", "m", "cWXQ", false);
    } else {
      assert arg[1] == '-';
    }
  }

  lemma NoModuleAt(arg: string, k: nat, m: nat)
    requires ClusterAt(arg, k, "c", "mWXQ", false) && 1 <= m < |arg|
    ensures !ClusterAt(arg, m, "m", "cWXQ", false)
  {
    if m < k { assert Passes(arg[m], "mWXQ", false); } else if k < m { assert !Passes(arg[k], "cWXQ", false); }
  }

  /** No token is read as a module and as code at once. */
  lemma ModuleOrCode(arg: string)
    requires EvalWord(arg) || Cluster(arg, "c", "mWXQ", false)
    ensures !NamesModule(arg)
  {
    if EvalWord(arg) {
      WordIsNoModule(arg);
    } else {
      var k := ClusterSpelled(arg, "c", "mWXQ", false);
      if NamesModule(arg) {
        var m := ClusterSpelled(arg, "m", "cWXQ", false);
        NoModuleAt(arg, k, m);
        assert false;
      }
    }
  }

  lemma IsDashed(arg: string, f: Family)
    requires Evaluates(arg, Some(f))
    ensures arg != "" && (arg[0] == '-' || (f == Cmd && arg[0] == '/'))
  {
    match f
    case PowerShell =>
      var name :| Spells(arg, name) && EvalParameter(Lower(name));
      assert ("-" + name)[0] == '-' && ("-" + name + ":")[0] == '-';
    case NodeFamily => DashedWord(arg);
    case PythonFamily => if EvalWord(arg) { DashedWord(arg); }
    case _ =>
  }

  lemma DashedWord(arg: string)
    requires NodeSpelling(arg)
    ensures arg != "" && arg[0] == '-'
  {
    if StartsWith(arg, "--print=") {
      assert arg[0] == "--print="[0];
    } else if StartsWith(arg, "--eval=") {
      assert arg[0] == "--eval="[0];
    } else if StartsWith(arg, "--command=") {
      assert arg[0] == "--command="[0];
    }
  }

  lemma Onwards(argv: seq<string>, g: Grammar, j: nat)
    requires j < |argv| && IsOption(argv[j], g) && !g.module_(argv[j])
    ensures var b := ScanFrom(argv, g, j); b.Found? ==> b.index > j
  {
    var a := argv[j];
    if PassedOver(a, g) {
      var next := j + Width(a, g);
      if ScanFrom(argv, g, next).Found? { FoundInRange(argv, g, next); }
    }
  }

  /** An evaluating token is an option, and never the boundary itself. */
  lemma EvaluatesOnwards(argv: seq<string>, t: Traits, j: nat)
    requires Exclusive(t) && j < |argv| && Evaluates(argv[j], FamilyFor(t))
    ensures var b := ScanFrom(argv, GrammarOf(t), j); b.Found? ==> b.index > j
  {
    var a := argv[j];
    IsDashed(a, FamilyFor(t).value);
    if t.kind == Some(Python) { PythonExact(a); ModuleOrCode(a); }
    Onwards(argv, GrammarOf(t), j);
  }

  /**
   A flag the spelled command's scan reaches is reported, if it is one of its family's
   evaluating tokens, whatever the resolved image is and whatever follows.
   */
  lemma ReachedIsReported(argv: seq<string>, n: Names, at: seq<nat>, t: nat)
    requires Walk(argv, GrammarOf(TraitsOf(n.spelled)), at) && at[0] == 1 && t < |at| && at[t] < |argv|
    requires Evaluates(argv[at[t]], FamilyOf(n.spelled))
    ensures ContainsInlineEval(argv, n)
  {
    var g, j := GrammarOf(TraitsOf(n.spelled)), at[t];
    WalkShares(argv, g, at, t);
    TraitsExclusive(n.spelled);
    EvaluatesOnwards(argv, TraitsOf(n.spelled), j);
    EvalExact(argv[j], n.spelled);
    var alone := Names(n.spelled, None);
    SpelledAlone(argv, n);
    assert j < End(argv, alone);
    assert IsInlineEval(argv[j], TraitsOf(Spellings(alone)[0])) && AnyEval(argv[j], alone);
    ResolvedNeverHides(argv, n);
  }

  /** The first argument, if it evaluates, is always reported. */
  lemma FirstIsReported(argv: seq<string>, n: Names)
    requires |argv| > 1 && Evaluates(argv[1], FamilyOf(n.spelled))
    ensures ContainsInlineEval(argv, n)
  {
    ReachedIsReported(argv, n, [1], 0);
  }

  ghost predicate SpelledBefore(argv: seq<string>, n: Names, j: nat, k: nat) {
    j < End(argv, n) && j < |argv| && k < |Spellings(n)| && Evaluates(argv[j], FamilyOf(Spellings(n)[k]))
  }

  /** Exactly the launch lines reported: an evaluating token before the boundary, or a bare PowerShell command. */
  lemma LinesExact(argv: seq<string>, n: Names)
    ensures ContainsInlineEval(argv, n) <==>
            (exists j: nat, k: nat :: SpelledBefore(argv, n, j, k)) || ImplicitCommand(argv, n)
  {
    if FlagEval(argv, n) {
      var j :| 0 <= j < End(argv, n) && j < |argv| && AnyEval(argv[j], n);
      var k :| 0 <= k < |Spellings(n)| && IsInlineEval(argv[j], TraitsOf(Spellings(n)[k]));
      EvalExact(argv[j], Spellings(n)[k]);
      assert SpelledBefore(argv, n, j, k);
    }
    forall j: nat, k: nat | SpelledBefore(argv, n, j, k) ensures FlagEval(argv, n) {
      EvalExact(argv[j], Spellings(n)[k]);
      assert AnyEval(argv[j], n);
    }
  }
}
