/**
 Where a launch line's payload begins: an option scan under the grammar of each
 interpreter family the command's spellings name, merged so that disagreement
 fails closed.
 */
module PayloadScan {
  import opened Options
  import opened Utf8
  import opened Text
  import opened FsArgument

  datatype Kind = Python | Node | Npx

  datatype Family = PythonFamily | NodeFamily | NpxFamily | Perl | Ruby | Shell | PowerShell | Cmd

  datatype Boundary = Found(index: nat) | Missing | Ambiguous(option: string)

  const CONFLICT := "conflicting payload boundaries across argv0 and resolved spellings"

  // ---- What a spelling tells ------------------------------------------------------------

  function AfterSeparator(s: string): string {
    if s == "" || s[|s| - 1] == '/' || s[|s| - 1] == '\\' then "" else AfterSeparator(s[..|s| - 1]) + [s[|s| - 1]]
  }

  /** Lowercased file name without a `.exe` suffix. */
  function Stem(argv0: string): string {
    var segs := Segments(argv0);
    var name := if segs != [] && segs[|segs| - 1] != ".." then segs[|segs| - 1] else argv0;
    var lower := Lower(AfterSeparator(name));
    if |lower| >= 4 && lower[|lower| - 4..] == ".exe" then lower[..|lower| - 4] else lower
  }

  predicate IsPython(s: string) {
    || s == "python" || s == "python2" || s == "python3" || StartsWith(s, "python2.") || StartsWith(s, "python3.")
    || s == "pypy" || s == "pypy2" || s == "pypy3" || StartsWith(s, "pypy2.") || StartsWith(s, "pypy3.")
    || s == "pythonw" || s == "py" || s == "pyw"
  }

  function KindOf(s: string): Option<Kind> {
    if IsPython(s) then Some(Python)
    else if s == "node" || s == "nodejs" then Some(Node)
    else if s == "npx" then Some(Npx)
    else None
  }

  predicate IsPerl(s: string) { s == "perl" || s == "perl5" || StartsWith(s, "perl5.") }

  predicate IsRuby(s: string) {
    StartsWith(s, "ruby") && forall i :: 4 <= i < |s| ==> '0' <= s[i] <= '9' || s[i] == '.'
  }

  predicate IsShell(s: string) {
    s == "sh" || s == "bash" || s == "dash" || s == "ash" || s == "zsh" || s == "ksh" || s == "mksh"
  }

  predicate IsPowerShell(s: string) { s == "powershell" || s == "pwsh" }

  /** All that the option tables ask about a spelling. */
  datatype Traits = Traits(kind: Option<Kind>, perl: bool, ruby: bool, shell: bool, powershell: bool, cmd: bool)

  function TraitsOf(argv0: string): Traits {
    var s := Stem(argv0);
    Traits(KindOf(s), IsPerl(s), IsRuby(s), IsShell(s), IsPowerShell(s), s == "cmd")
  }

  function FamilyOf(argv0: string): Option<Family> { FamilyFor(TraitsOf(argv0)) }

  function FamilyFor(t: Traits): Option<Family> {
    match t.kind
    case Some(Python) => Some(PythonFamily)
    case Some(Node) => Some(NodeFamily)
    case Some(Npx) => Some(NpxFamily)
    case None =>
      if t.perl then Some(Perl) else if t.ruby then Some(Ruby) else if t.shell then Some(Shell)
      else if t.powershell then Some(PowerShell) else if t.cmd then Some(Cmd) else None
  }

  // ---- Option tables ------------------------------------------------------------------------

  predicate IsAlpha(c: char) { 'a' <= c <= 'z' || 'A' <= c <= 'Z' }

  predicate IsDigit(c: char) { '0' <= c <= '9' }

  /** A single-dash cluster reaches one of `hits` before any of `stops` or a character that ends the flag run. */
  predicate Reaches(body: string, hits: string, stops: string, digits: bool) {
    body != "" && (body[0] in hits
                   || (body[0] !in stops && (IsAlpha(body[0]) || (digits && IsDigit(body[0])))
                       && Reaches(body[1..], hits, stops, digits)))
  }

  predicate Cluster(arg: string, hits: string, stops: string, digits: bool) {
    |arg| > 1 && arg[0] == '-' && arg[1] != '-' && Reaches(arg[1..], hits, stops, digits)
  }

  predicate NamesModule(arg: string) { Cluster(arg, "m", "cWXQ", false) }

  /** The parameter a PowerShell flag spells, lowered; empty when it is none. */
  function Parameter(arg: string): string {
    if arg == "" || arg[0] != '-' then ""
    else
      var name := arg[1..][..Find(arg[1..], ':')];
      if name == "" || name[0] == '-' then "" else Lower(name)
  }

  predicate PrefixOfAny(p: string, names: seq<string>) { exists i :: 0 <= i < |names| && StartsWith(names[i], p) }

  predicate PowerShellEval(arg: string) {
    var p := Parameter(arg);
    p != "" && (p == "cwa" || p == "ec" || PrefixOfAny(p, ["command", "commandwithargs", "encodedcommand"]))
  }

  predicate PowerShellOperand(arg: string) {
    var p := Parameter(arg);
    p != "" && ':' !in arg
    && (p in ["cwa", "ep", "if", "of", "sf", "wd"]
        || PrefixOfAny(p, ["command", "commandwithargs", "encodedcommand", "executionpolicy", "inputformat",
                           "outputformat", "windowstyle", "version", "psconsolefile", "configurationname",
                           "custompipename", "settingsfile", "workingdirectory"]))
  }

  predicate CmdEval(arg: string) { |arg| >= 2 && arg[0] == '/' && LowerChar(arg[1]) in "ckr" }

  predicate IsInlineEval(arg: string, t: Traits) {
    || ((t.kind == Some(Python) || t.kind == Some(Node))
        && (arg in ["-e", "--eval", "--command"] || StartsWith(arg, "--eval=") || StartsWith(arg, "--command=")))
    || (if t.kind == Some(Python) then Cluster(arg, "c", "mWXQ", false)
        else if t.kind == Some(Node) then arg in ["-p", "-pe", "--print"] || StartsWith(arg, "--print=")
        else if t.perl then Cluster(arg, "eE", "FIMmCDxi:=", true)
        else if t.ruby then Cluster(arg, "e", "EKIrSTxiCF:=", true)
        else if t.shell then Cluster(arg, "c", "oO", false)
        else if t.powershell then PowerShellEval(arg)
        else t.cmd && CmdEval(arg))
  }

  /** Position of the first character of `letters`, or the length. */
  function FirstOf(s: string, letters: string): (n: nat)
    ensures n <= |s|
  {
    if s == "" || s[0] in letters then 0 else 1 + FirstOf(s[1..], letters)
  }

  /** The last letter of a cluster takes the next token: a character position held against a byte length. */
  predicate TrailingOperand(arg: string, t: Traits) {
    var dashed := arg != "" && arg[0] == '-';
    var plussed := t.shell && arg != "" && arg[0] == '+';
    if !dashed && !plussed then false
    else
      var body := arg[1..];
      var letters := if t.kind == Some(Python) then "WXQ" else if t.shell then "oO" else "";
      |Encode(body)| >= 2 && body[0] != '-'
      && FirstOf(body, letters) < |body| && FirstOf(body, letters) == |Encode(body)| - 1
  }

  const NODE_OPERANDS: seq<string> := [
    "-r", "--require", "--loader", "--experimental-loader", "--import", "--input-type", "-C", "--conditions",
    "--icu-data-dir", "--openssl-config", "--redirect-warnings", "--title", "--diagnostic-dir", "--report-directory",
    "--report-filename",
    "--heap-prof-dir", "--heap-prof-name", "--cpu-prof-dir", "--cpu-prof-name", "--cpu-prof-interval", "--policy",
    "--snapshot-blob", "--inspect-publish-uid", "--watch-path", "--test-name-pattern"]

  predicate ConsumesOperand(arg: string, t: Traits) {
    '=' !in arg
    && (|| (t.kind == Some(Python) && arg in ["-W", "-X", "-Q", "--check-hash-based-pycs"])
        || (t.kind == Some(Node) && arg in NODE_OPERANDS)
        || (if t.perl then arg in ["-I", "-M", "-m"]
            else if t.ruby then arg in ["-I", "-r", "-C", "-X", "-E"]
            else t.shell && arg in ["-o", "-O", "+o", "+O"])
        || TrailingOperand(arg, t)
        || (t.powershell && PowerShellOperand(arg)))
  }

  const NODE_FLAGS: seq<string> := [
    "--check", "--preserve-symlinks", "--preserve-symlinks-main", "--inspect", "--inspect-brk", "--watch", "--test",
    "--expose-gc", "--prof", "--pending-deprecation", "--trace-warnings", "--trace-deprecation", "--trace-exit",
    "--trace-uncaught", "--abort-on-uncaught-exception", "--permission", "--no-warnings", "--no-addons",
    "--enable-source-maps", "--experimental-strip-types", "--experimental-transform-types", "--experimental-vm-modules",
    "--disable-proto", "--help", "--version"]

  predicate Valueless(arg: string, t: Traits) {
    if t.kind == Some(Python) then
      arg in ["--help", "--version", "--help-env", "--help-xoptions", "--help-all", "--help-debug"]
    else if t.kind == Some(Node) then arg in NODE_FLAGS || StartsWith(arg, "--no-")
    else if t.perl then arg in ["--help", "--version"]
    else if t.ruby then arg in ["--help", "--version", "--verbose", "--yydebug"]
    else t.shell && arg in ["--help", "--version", "--norc", "--noprofile", "--posix", "--login", "--restricted",
                            "--interactive"]
  }

  predicate IsAmbiguous(arg: string, t: Traits) {
    StartsWith(arg, "--") && '=' !in arg
    && (t.kind == Some(Python) || t.kind == Some(Node) || t.perl || t.ruby || t.shell || t.powershell || t.cmd)
    && !Valueless(arg, t)
  }

  /** One family's reading of a single token. */
  datatype Grammar = Grammar(
    slash: bool, plus: bool, module_: string -> bool, operand: string -> bool, ambiguous: string -> bool,
    eval: string -> bool)

  function GrammarOf(t: Traits): Grammar {
    Grammar(t.cmd, t.shell, a => t.kind == Some(Python) && NamesModule(a), a => ConsumesOperand(a, t),
            a => IsAmbiguous(a, t), a => IsInlineEval(a, t))
  }

  // ---- The scan under one grammar -----------------------------------------------------------

  predicate IsOption(a: string, g: Grammar) {
    a != "" && (a[0] == '-' || (g.slash && a[0] == '/') || (g.plus && |a| > 1 && a[0] == '+'))
  }

  /** The module's `m` is the token's last byte, so the module name is the next token. */
  predicate ModuleFollows(a: string) { a != "" && Find(a[1..], 'm') == |Encode(a[1..])| - 1 }

  function Next(argv: seq<string>, i: nat): Boundary { if i + 1 < |argv| then Found(i + 1) else Missing }

  function ScanFrom(argv: seq<string>, g: Grammar, i: nat): Boundary
    decreases |argv| - i
  {
    if i >= |argv| then Missing
    else
      var a := argv[i];
      if a == "--" then Next(argv, i)
      else if a == "-" then Missing
      else if !IsOption(a, g) then Found(i)
      else if g.module_(a) then if ModuleFollows(a) then Next(argv, i) else Found(i)
      else if g.operand(a) then ScanFrom(argv, g, i + 2)
      else if g.ambiguous(a) then Ambiguous(a)
      else ScanFrom(argv, g, i + 1)
  }

  function ScanOne(argv: seq<string>, argv0: string): Boundary { ScanFrom(argv, GrammarOf(TraitsOf(argv0)), 1) }

  method PayloadScanOne(argv: seq<string>, g: Grammar) returns (r: Boundary)
    ensures r == ScanFrom(argv, g, 1)
  {
    var i := 1;
    while i < |argv|
      invariant ScanFrom(argv, g, 1) == ScanFrom(argv, g, i)
    {
      var a := argv[i];
      if a == "--" {
        return if i + 1 < |argv| then Found(i + 1) else Missing;
      }
      if a == "-" { return Missing; }
      if !IsOption(a, g) { return Found(i); }
      if g.module_(a) {
        if !ModuleFollows(a) { return Found(i); }
        return if i + 1 < |argv| then Found(i + 1) else Missing;
      }
      if g.operand(a) {
        i := i + 2;
      } else if g.ambiguous(a) {
        return Ambiguous(a);
      } else {
        i := i + 1;
      }
    }
    r := Missing;
  }

  /** A payload found is a real token after the command. */
  lemma {:induction false} FoundInRange(argv: seq<string>, g: Grammar, i: nat)
    requires i >= 1 && ScanFrom(argv, g, i).Found?
    ensures i <= ScanFrom(argv, g, i).index < |argv|
    decreases |argv| - i
  {
    var a := argv[i];
    if a != "--" && a != "-" && IsOption(a, g) && !g.module_(a) && !(g.ambiguous(a) && !g.operand(a)) {
      FoundInRange(argv, g, if g.operand(a) then i + 2 else i + 1);
    }
  }

  // ---- One grammar per family --------------------------------------------------------------------

  lemma PythonNames(s: string)
    requires IsPython(s)
    ensures StartsWith(s, "py")
  {
  }

  /** The first two letters of a modeled name give its family away. */
  lemma NamesDiffer(s: string)
    ensures KindOf(s) == Some(Python) ==> StartsWith(s, "py")
    ensures KindOf(s) == Some(Node) ==> StartsWith(s, "no")
    ensures KindOf(s) == Some(Npx) ==> StartsWith(s, "np")
    ensures IsPerl(s) ==> StartsWith(s, "pe")
    ensures IsRuby(s) ==> StartsWith(s, "ru")
    ensures IsPowerShell(s) ==> StartsWith(s, "po") || StartsWith(s, "pw")
    ensures s == "cmd" ==> StartsWith(s, "cm")
    ensures IsShell(s) ==> |s| >= 2 && s[0] != 'p' && s[0] != 'n' && s[0] != 'r' && s[0] != 'c'
  {
    if IsPython(s) { PythonNames(s); }
  }

  /** Traits with one thing true at most, as every spelling has them. */
  predicate Exclusive(t: Traits) {
    && (t.kind.Some? ==> !t.perl && !t.ruby && !t.shell && !t.powershell && !t.cmd)
    && (t.perl ==> !t.ruby && !t.shell && !t.powershell && !t.cmd)
    && (t.ruby ==> !t.shell && !t.powershell && !t.cmd)
    && (t.shell ==> !t.powershell && !t.cmd)
    && (t.powershell ==> !t.cmd)
  }

  lemma TraitsExclusive(argv0: string)
    ensures Exclusive(TraitsOf(argv0))
  {
    var s := Stem(argv0);
    NamesDiffer(s);
    if |s| >= 2 { assert s[..2] == [s[0], s[1]]; }
  }

  /** A spelling matters only through its family: equal families scan every launch line alike. */
  lemma FamilyDecides(a: string, b: string, argv: seq<string>)
    requires FamilyOf(a) == FamilyOf(b)
    ensures TraitsOf(a) == TraitsOf(b) && ScanOne(argv, a) == ScanOne(argv, b)
  {
    TraitsExclusive(a);
    TraitsExclusive(b);
    FamilyFixesTraits(TraitsOf(a), TraitsOf(b));
  }

  lemma FamilyFixesTraits(t: Traits, u: Traits)
    requires Exclusive(t) && Exclusive(u) && FamilyFor(t) == FamilyFor(u)
    ensures t == u
  {
  }

  /** Only a modeled family has inline-evaluation flags. */
  lemma EvalIsModeled(arg: string, argv0: string)
    requires IsInlineEval(arg, TraitsOf(argv0))
    ensures FamilyOf(argv0).Some?
  {
  }

  // ---- Both spellings -------------------------------------------------------------------------------

  datatype Names = Names(spelled: string, resolved: Option<string>)

  function Spellings(n: Names): seq<string> {
    if n.resolved.Some? && n.resolved.value != n.spelled then [n.spelled, n.resolved.value] else [n.spelled]
  }

  /** A spelling with its family and its scan of one launch line. */
  datatype Reading = Reading(spelling: string, family: Option<Family>, boundary: Boundary)

  function Readings(argv: seq<string>, spellings: seq<string>): (r: seq<Reading>)
    ensures |r| == |spellings|
    ensures forall i :: 0 <= i < |r| ==>
              r[i] == Reading(spellings[i], FamilyOf(spellings[i]), ScanOne(argv, spellings[i]))
  {
    seq(|spellings|, i requires 0 <= i < |spellings| =>
        Reading(spellings[i], FamilyOf(spellings[i]), ScanOne(argv, spellings[i])))
  }

  predicate Tagged(rs: seq<Reading>, family: Option<Family>) { exists k :: 0 <= k < |rs| && rs[k].family == family }

  /** One representative per modeled family, in order. */
  function Distinct(all: seq<Reading>): (r: seq<Reading>)
    ensures forall i :: 0 <= i < |r| ==> r[i] in all
  {
    if all == [] then []
    else
      var front, last := all[..|all| - 1], all[|all| - 1];
      if last.family.Some? && !Tagged(front, last.family) then Distinct(front) + [last] else Distinct(front)
  }

  /** No two representatives share a family, and each is the first reading of its own. */
  lemma {:induction false} DistinctFamilies(all: seq<Reading>, i: nat, j: nat)
    requires i < j < |Distinct(all)|
    ensures Distinct(all)[i].family != Distinct(all)[j].family
  {
    var front := all[..|all| - 1];
    if j < |Distinct(front)| {
      DistinctFamilies(front, i, j);
    } else {
      assert Distinct(front)[i] in front && !Tagged(front, Distinct(all)[j].family);
    }
  }

  lemma {:induction false} DistinctIsFirst(all: seq<Reading>, i: nat) returns (k: nat)
    requires i < |Distinct(all)|
    ensures k < |all| && all[k] == Distinct(all)[i] && all[k].family.Some? && !Tagged(all[..k], all[k].family)
  {
    var front := all[..|all| - 1];
    if i < |Distinct(front)| {
      k := DistinctIsFirst(front, i);
      assert front[..k] == all[..k];
    } else {
      k := |all| - 1;
    }
  }

  /** One representative of each family among the readings, and no two of one family. */
  method FamilySpellings(all: seq<Reading>) returns (out: seq<Reading>)
    ensures out == Distinct(all)
    ensures forall i, j :: 0 <= i < j < |out| ==> out[i].family != out[j].family
    ensures forall f: Option<Family> :: f.Some? && Tagged(all, f) ==> Tagged(out, f)
  {
    var tags: seq<Family> := [];
    out := [];
    for i := 0 to |all|
      invariant out == Distinct(all[..i]) && (forall t :: t in tags <==> Tagged(all[..i], Some(t)))
    {
      TaggedSnoc(all, i);
      assert all[..i + 1][..i] == all[..i];
      var tag := all[i].family;
      if tag.Some? && tag.value !in tags {
        tags := tags + [tag.value];
        out := out + [all[i]];
      }
    }
    assert all[..|all|] == all;
    forall i, j | 0 <= i < j < |out| ensures out[i].family != out[j].family { DistinctFamilies(all, i, j); }
    forall f: Option<Family> | f.Some? && Tagged(all, f) ensures Tagged(out, f) { Represented(all, f); }
  }

  lemma TaggedSnoc(all: seq<Reading>, i: nat)
    requires i < |all|
    ensures forall f :: Tagged(all[..i + 1], f) <==> Tagged(all[..i], f) || all[i].family == f
  {
    forall f ensures Tagged(all[..i + 1], f) <==> Tagged(all[..i], f) || all[i].family == f {
      if Tagged(all[..i], f) {
        var k :| 0 <= k < i && all[..i][k].family == f;
        assert all[..i + 1][k].family == f;
      }
      if all[i].family == f { assert all[..i + 1][i].family == f; }
      if Tagged(all[..i + 1], f) && all[i].family != f {
        var k :| 0 <= k < i + 1 && all[..i + 1][k].family == f;
        assert all[..i][k].family == f;
      }
    }
  }

  function Merge(a: Boundary, b: Boundary): Boundary {
    if a.Ambiguous? then a
    else if b.Ambiguous? then b
    else if a == b then a
    else Ambiguous(CONFLICT)
  }

  function MergeAll(rs: seq<Reading>): Boundary
    requires rs != []
  {
    var last := rs[|rs| - 1].boundary;
    if |rs| == 1 then last else Merge(MergeAll(rs[..|rs| - 1]), last)
  }

  function Scan(argv: seq<string>, n: Names): Boundary {
    var reps := Distinct(Readings(argv, Spellings(n)));
    if reps == [] then ScanOne(argv, n.spelled) else MergeAll(reps)
  }

  lemma {:induction false} MergedFound(rs: seq<Reading>, i: nat)
    requires rs != [] && MergeAll(rs) == Found(i)
    ensures forall k :: 0 <= k < |rs| ==> rs[k].boundary == Found(i)
  {
    if |rs| > 1 {
      var front := rs[..|rs| - 1];
      MergedFound(front, i);
      forall k | 0 <= k < |rs| ensures rs[k].boundary == Found(i) { if k < |front| { assert rs[k] == front[k]; } }
    }
  }

  lemma {:induction false} Represented(all: seq<Reading>, f: Option<Family>)
    requires f.Some? && Tagged(all, f)
    ensures Tagged(Distinct(all), f)
  {
    var front, last := all[..|all| - 1], all[|all| - 1];
    if Tagged(front, f) {
      Represented(front, f);
      var j :| 0 <= j < |Distinct(front)| && Distinct(front)[j].family == f;
      assert Distinct(all)[j] == Distinct(front)[j];
    } else {
      TaggedSnoc(all, |front|);
      assert all[..|front| + 1] == all;
      assert Distinct(all)[|Distinct(front)|] == last;
    }
  }

  /** A merged boundary is the answer of every modeled spelling by itself, and a real token. */
  lemma MergedBoundary(argv: seq<string>, n: Names, i: nat)
    requires Scan(argv, n) == Found(i)
    ensures 1 <= i < |argv|
    ensures forall k :: 0 <= k < |Spellings(n)| && FamilyOf(Spellings(n)[k]).Some? ==>
              ScanOne(argv, Spellings(n)[k]) == Found(i)
  {
    var all := Readings(argv, Spellings(n));
    var reps := Distinct(all);
    if reps == [] {
      FoundInRange(argv, GrammarOf(TraitsOf(n.spelled)), 1);
    } else {
      MergedFound(reps, i);
      assert reps[0] in all;
      FoundInRange(argv, GrammarOf(TraitsOf(reps[0].spelling)), 1);
    }
    forall k | 0 <= k < |all| && all[k].family.Some? ensures all[k].boundary == Found(i) {
      ReadingDecided(argv, Spellings(n), k, i);
    }
  }

  lemma ReadingDecided(argv: seq<string>, spellings: seq<string>, k: nat, i: nat)
    requires k < |spellings| && FamilyOf(spellings[k]).Some?
    requires var reps := Distinct(Readings(argv, spellings)); reps != [] ==> MergeAll(reps) == Found(i)
    ensures ScanOne(argv, spellings[k]) == Found(i)
  {
    var all := Readings(argv, spellings);
    var reps := Distinct(all);
    assert Tagged(all, all[k].family);
    Represented(all, all[k].family);
    var j :| 0 <= j < |reps| && reps[j].family == all[k].family;
    MergedFound(reps, i);
    assert reps[j] in all;
    FamilyDecides(reps[j].spelling, spellings[k], argv);
  }

  // ---- Inline evaluation ------------------------------------------------------------------------------

  predicate AnyEval(arg: string, n: Names) {
    exists k :: 0 <= k < |Spellings(n)| && IsInlineEval(arg, TraitsOf(Spellings(n)[k]))
  }

  function End(argv: seq<string>, n: Names): nat { if Scan(argv, n).Found? then Scan(argv, n).index else |argv| }

  /** A flag before the boundary evaluates under some spelling. */
  predicate FlagEval(argv: seq<string>, n: Names) {
    exists j :: 0 <= j < End(argv, n) && j < |argv| && AnyEval(argv[j], n)
  }

  predicate EndsWith(s: string, suffix: string) { |suffix| <= |s| && s[|s| - |suffix|..] == suffix }

  predicate SpellsFile(arg: string) {
    arg != "" && arg[0] == '-' && var body := arg[1..][..Find(arg[1..], ':')];
    body != "" && body[0] != '-' && StartsWith("file", Lower(body))
  }

  /** Windows PowerShell reads a positional argument that is no script as a command. */
  predicate ImplicitCommand(argv: seq<string>, n: Names) {
    (exists k :: 0 <= k < |Spellings(n)| && Stem(Spellings(n)[k]) == "powershell")
    && match Scan(argv, n)
       case Found(i) =>
         i < |argv| && !(exists j :: 0 <= j < i && j < |argv| && SpellsFile(argv[j]))
           && !EndsWith(Lower(argv[i]), ".ps1")
       case _ => false
  }

  predicate ContainsInlineEval(argv: seq<string>, n: Names) { FlagEval(argv, n) || ImplicitCommand(argv, n) }

  lemma SpelledAlone(argv: seq<string>, n: Names)
    ensures Spellings(n)[0] == n.spelled && Spellings(Names(n.spelled, None)) == [n.spelled]
    ensures FamilyOf(n.spelled).Some? ==> Scan(argv, Names(n.spelled, None)) == ScanOne(argv, n.spelled)
  {
    var one := Readings(argv, [n.spelled]);
    assert one[..0] == [] && one == [one[0]];
    if FamilyOf(n.spelled).Some? { assert Distinct(one) == one; }
  }

  /** Learning the resolved image never hides a flag-spelled inline evaluation that argv[0] alone reports. */
  lemma ResolvedNeverHides(argv: seq<string>, n: Names)
    requires FlagEval(argv, Names(n.spelled, None))
    ensures FlagEval(argv, n) && ContainsInlineEval(argv, n)
  {
    var alone := Names(n.spelled, None);
    SpelledAlone(argv, n);
    var j :| 0 <= j < End(argv, alone) && j < |argv| && AnyEval(argv[j], alone);
    assert IsInlineEval(argv[j], TraitsOf(Spellings(n)[0]));
    EvalIsModeled(argv[j], n.spelled);
    EndReaches(argv, n);
    assert j < End(argv, n) && AnyEval(argv[j], n);
  }

  /** The resolved image never brings the boundary forward. */
  lemma EndReaches(argv: seq<string>, n: Names)
    requires FamilyOf(n.spelled).Some?
    ensures End(argv, n) == |argv| || End(argv, n) == End(argv, Names(n.spelled, None))
  {
    SpelledAlone(argv, n);
    if Scan(argv, n).Found? { MergedBoundary(argv, n, Scan(argv, n).index); }
  }

  /**
   An implicit PowerShell command that argv[0] alone reports is still reported exactly
   when some flag evaluates or the two spellings agree on the boundary.
   */
  lemma ImplicitCommandExact(argv: seq<string>, n: Names)
    requires ImplicitCommand(argv, Names(n.spelled, None))
    ensures ContainsInlineEval(argv, n) <==> FlagEval(argv, n) || Scan(argv, n).Found?
  {
    var alone := Names(n.spelled, None);
    SpelledAlone(argv, n);
    assert Stem(n.spelled) == "powershell";
    PowerShellIsModeled(n.spelled);
    if Scan(argv, n).Found? {
      MergedBoundary(argv, n, Scan(argv, n).index);
      assert Stem(Spellings(n)[0]) == "powershell";
    }
  }

  lemma PowerShellIsModeled(argv0: string)
    requires Stem(argv0) == "powershell"
    ensures FamilyOf(argv0) == Some(PowerShell)
  {
    TraitsExclusive(argv0);
  }

  // ---- A command that disagreement hides ------------------------------------------------------------

  /** A token that is an option in no grammar. */
  predicate Word(s: string) { s != "" && s[0] != '-' && s[0] != '/' && s[0] != '+' }

  const POWERSHELL_TRAITS := Traits(None, false, false, false, true, false)
  const PYTHON_TRAITS := Traits(Some(Python), false, false, false, false, false)

  lemma FamilyTraits(argv0: string)
    ensures FamilyOf(argv0) == Some(PowerShell) ==> TraitsOf(argv0) == POWERSHELL_TRAITS
    ensures FamilyOf(argv0) == Some(PythonFamily) ==> TraitsOf(argv0) == PYTHON_TRAITS
  {
    TraitsExclusive(argv0);
    if FamilyOf(argv0) == Some(PowerShell) { FamilyFixesTraits(TraitsOf(argv0), POWERSHELL_TRAITS); }
    if FamilyOf(argv0) == Some(PythonFamily) { FamilyFixesTraits(TraitsOf(argv0), PYTHON_TRAITS); }
  }

  lemma WordsNeverEvaluate(a: string)
    requires Word(a)
    ensures !IsInlineEval(a, POWERSHELL_TRAITS) && !IsInlineEval(a, PYTHON_TRAITS)
  {
  }

  lemma XParameter(x: string)
    requires x == "-X"
    ensures Parameter(x) == "x" && !PowerShellEval(x) && !PowerShellOperand(x) && !SpellsFile(x)
  {
    assert x[1..] == "X" && Find("X", ':') == 1 && "X"[..1] == "X";
    assert Lower("X") == "x";
  }

  lemma XUnderPowerShell(x: string)
    requires x == "-X"
    ensures !IsInlineEval(x, POWERSHELL_TRAITS) && !ConsumesOperand(x, POWERSHELL_TRAITS)
    ensures !IsAmbiguous(x, POWERSHELL_TRAITS)
  {
    XParameter(x);
    var body := x[1..];
    assert body == "X" && FirstOf(body, "") == 1 + FirstOf(body[1..], "") && body[1..] == "";
  }

  lemma XUnderPython(x: string)
    requires x == "-X"
    ensures !IsInlineEval(x, PYTHON_TRAITS) && ConsumesOperand(x, PYTHON_TRAITS) && !NamesModule(x)
  {
    assert x[1..] == "X" && x[1..][0] == 'X';
    assert "mWXQ"[2] == 'X' && "cWXQ"[2] == 'X';
  }

  lemma ScansConflict(argv: seq<string>)
    requires |argv| == 4 && argv[1] == "-X" && Word(argv[2]) && Word(argv[3])
    ensures ScanFrom(argv, GrammarOf(POWERSHELL_TRAITS), 1) == Found(2)
    ensures ScanFrom(argv, GrammarOf(PYTHON_TRAITS), 1) == Found(3)
  {
    PowerShellStops(argv, GrammarOf(POWERSHELL_TRAITS));
    PythonPasses(argv, GrammarOf(PYTHON_TRAITS));
  }

  lemma PowerShellStops(argv: seq<string>, g: Grammar)
    requires |argv| == 4 && argv[1] == "-X" && Word(argv[2]) && g == GrammarOf(POWERSHELL_TRAITS)
    ensures ScanFrom(argv, g, 1) == Found(2)
  {
    XUnderPowerShell(argv[1]);
    assert ScanFrom(argv, g, 2) == Found(2);
  }

  lemma PythonPasses(argv: seq<string>, g: Grammar)
    requires |argv| == 4 && argv[1] == "-X" && Word(argv[3]) && g == GrammarOf(PYTHON_TRAITS)
    ensures ScanFrom(argv, g, 1) == Found(3)
  {
    XUnderPython(argv[1]);
    assert ScanFrom(argv, g, 3) == Found(3);
  }

  lemma MergeTwo(argv: seq<string>, n: Names)
    requires n.resolved.Some? && FamilyOf(n.spelled).Some? && FamilyOf(n.resolved.value).Some?
    requires FamilyOf(n.spelled) != FamilyOf(n.resolved.value)
    ensures Spellings(n) == [n.spelled, n.resolved.value]
    ensures Scan(argv, n) == Merge(ScanOne(argv, n.spelled), ScanOne(argv, n.resolved.value))
  {
    var all := Readings(argv, Spellings(n));
    assert all[..1] == [all[0]] && all[..1][..0] == [];
    assert Distinct(all[..1]) == [all[0]];
    assert !Tagged(all[..1], all[1].family);
    assert Distinct(all) == all;
    assert MergeAll(all[..1]) == all[0].boundary;
  }

  /** `powershell -X Get-Process b` and the like. */
  predicate CrossLine(argv: seq<string>) {
    |argv| == 4 && argv[1] == "-X" && Word(argv[0]) && Word(argv[2]) && Word(argv[3])
      && !EndsWith(Lower(argv[2]), ".ps1")
  }

  lemma NothingEvaluates(argv: seq<string>, j: nat)
    requires CrossLine(argv) && j < |argv|
    ensures !IsInlineEval(argv[j], POWERSHELL_TRAITS) && !IsInlineEval(argv[j], PYTHON_TRAITS)
  {
    if j == 1 {
      XUnderPowerShell(argv[1]);
      XUnderPython(argv[1]);
    } else {
      WordsNeverEvaluate(argv[j]);
    }
  }

  lemma AloneReports(argv: seq<string>, spelled: string)
    requires CrossLine(argv) && Stem(spelled) == "powershell" && ScanOne(argv, spelled) == Found(2)
    requires FamilyOf(spelled).Some?
    ensures ImplicitCommand(argv, Names(spelled, None))
  {
    var alone := Names(spelled, None);
    SpelledAlone(argv, alone);
    assert Stem(Spellings(alone)[0]) == "powershell";
    forall j | 0 <= j < 2 ensures !SpellsFile(argv[j]) { NoFileSpelled(argv, j); }
  }

  lemma NoFileSpelled(argv: seq<string>, j: nat)
    requires CrossLine(argv) && j < 2
    ensures !SpellsFile(argv[j])
  {
    XParameter(argv[1]);
  }

  /** With a Python image behind it, the command that argv[0] alone reports is not reported any more. */
  lemma ConflictHidesCommand(n: Names, argv: seq<string>)
    requires Stem(n.spelled) == "powershell" && n.resolved.Some? && FamilyOf(n.resolved.value) == Some(PythonFamily)
    requires CrossLine(argv)
    ensures ImplicitCommand(argv, Names(n.spelled, None)) && !ContainsInlineEval(argv, n)
  {
    PowerShellIsModeled(n.spelled);
    FamilyTraits(n.spelled);
    FamilyTraits(n.resolved.value);
    ScansConflict(argv);
    AloneReports(argv, n.spelled);
    SpellingsConflict(argv, n);
    CrossConflict(argv, n);
  }

  lemma SpellingsConflict(argv: seq<string>, n: Names)
    requires n.resolved.Some? && FamilyOf(n.spelled) == Some(PowerShell)
    requires FamilyOf(n.resolved.value) == Some(PythonFamily)
    requires ScanOne(argv, n.spelled) == Found(2) && ScanOne(argv, n.resolved.value) == Found(3)
    ensures Spellings(n) == [n.spelled, n.resolved.value] && Scan(argv, n).Ambiguous?
  {
    MergeTwo(argv, n);
  }

  lemma NeitherEvaluates(arg: string, n: Names, t: Traits, u: Traits)
    requires |Spellings(n)| == 2 && TraitsOf(Spellings(n)[0]) == t && TraitsOf(Spellings(n)[1]) == u
    requires !IsInlineEval(arg, t) && !IsInlineEval(arg, u)
    ensures !AnyEval(arg, n)
  {
  }

  lemma NoFlagEval(argv: seq<string>, n: Names)
    requires forall j :: 0 <= j < |argv| ==> !AnyEval(argv[j], n)
    ensures !FlagEval(argv, n)
  {
  }

  lemma CrossConflict(argv: seq<string>, n: Names)
    requires CrossLine(argv) && |Spellings(n)| == 2 && Scan(argv, n).Ambiguous?
    requires TraitsOf(Spellings(n)[0]) == POWERSHELL_TRAITS && TraitsOf(Spellings(n)[1]) == PYTHON_TRAITS
    ensures !ContainsInlineEval(argv, n)
  {
    forall j | 0 <= j < |argv| ensures !AnyEval(argv[j], n) {
      NothingEvaluates(argv, j);
      NeitherEvaluates(argv[j], n, POWERSHELL_TRAITS, PYTHON_TRAITS);
    }
    NoFlagEval(argv, n);
  }
}
