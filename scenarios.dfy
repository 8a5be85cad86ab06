/**
  The parses of the parser's own test table, each over a small file system.
  Every file is named by an absolute path that is already clean, so name
  expansion is the identity, and the parser is the default one with the
  null handler.
*/
module ParserScenarios {
  import opened Wrappers
  import opened GoStrings
  import opened FilePaths
  import opened Statistics
  import opened Parser
  import opened ParserLemmas

  /** `New("intro", NullParser{})`, with the default comment introducer and include keyword. */
  const NullFP := Config("intro", NullParser, DefaultCommentIntro, DefaultInclKeyWord)

  // ---------------------------------------------------------------------
  // One step of the walk at a time

  lemma Opened(cfg: Config, env: Env, filename: string, chain: seq<Loc>, fixed: string)
    requires env.expand(filename) == Some(fixed)
    requires fixed in env.files && !HasLoop(chain, fixed) && !env.files[fixed].readFault
    ensures var scan := ScanLines(cfg, env, filename, fixed, chain, 0);
            ParseFileSpec(cfg, env, filename, chain)
              == Run(scan.errors, scan.delivered, scan.stats.(filesVisited := scan.stats.filesVisited + 1), scan.depth + 1,
                     [fixed] + scan.visited)
  {
    var scan := ScanLines(cfg, env, filename, fixed, chain, 0);
    assert scan.errors + [] == scan.errors;
  }

  lemma ScanDone(cfg: Config, env: Env, filename: string, fixed: string, chain: seq<Loc>, i: nat)
    requires fixed in env.files && !HasLoop(chain, fixed)
    requires i == |env.files[fixed].lines|
    ensures ScanLines(cfg, env, filename, fixed, chain, i) == Run([], [], Zero, 0, [])
  {
  }

  /** An empty file that opens: one file visited and nothing else. */
  lemma OpenedEmpty(cfg: Config, env: Env, filename: string, chain: seq<Loc>)
    requires env.expand(filename) == Some(filename) && !HasLoop(chain, filename)
    requires filename in env.files && env.files[filename] == File([], false)
    ensures ParseFileSpec(cfg, env, filename, chain) == Run([], [], Stats(1, 0, 0), 1, [filename])
  {
    ScanDone(cfg, env, filename, filename, chain, 0);
    Opened(cfg, env, filename, chain, filename);
  }

  lemma ScanLast(cfg: Config, env: Env, filename: string, fixed: string, chain: seq<Loc>, i: nat)
    requires fixed in env.files && !HasLoop(chain, fixed)
    requires i + 1 == |env.files[fixed].lines|
    ensures ScanLines(cfg, env, filename, fixed, chain, i) == LineStep(cfg, env, filename, fixed, chain, i)
  {
  }

  // ---------------------------------------------------------------------
  // The lines of the test files

  /** A short line without a separator or surrounding space passes unchanged and is no include line. */
  lemma PlainLine(s: string)
    requires 0 < |s| < |DefaultInclKeyWord|
    requires forall j :: 0 <= j < |s| ==> s[j] != '/'
    requires !IsSpace(s[0]) && !IsSpace(s[|s| - 1])
    ensures StripComment(DefaultCommentIntro, s) == s
    ensures !IsAnInclLine(DefaultInclKeyWord, s).1
  {
    FirstIntroAt(DefaultCommentIntro, s, |s|);
    TrimmedPrefix(s, |s|, 0, |s|);
  }

  /** The absolute file name `/n` of the test file called `n`. */
  function Path(n: char): (r: string)
    ensures |r| == 2 && IsAbs(r) && r[1] == n
  {
    "/" + [n]
  }

  /** The line that includes the test file called `n`. */
  function IncludeOf(n: char): (r: string)
    ensures |r| == 11 && r[..8] == DefaultInclKeyWord && r[8..] == " " + Path(n)
  {
    DefaultInclKeyWord + " " + Path(n)
  }

  /** Test files with different letters have different names. */
  lemma PathsDiffer(m: char, n: char)
    requires m != n
    ensures Path(m) != Path(n)
  {
    assert Path(m)[1] != Path(n)[1];
  }

  /** An include line has no comment. */
  lemma IncludeLineKept(n: char)
    requires n != '/' && !IsSpace(n)
    ensures StripComment(DefaultCommentIntro, IncludeOf(n)) == IncludeOf(n)
  {
    var s := IncludeOf(n);
    assert s == "#include /" + [n];
    forall j | 0 <= j <= |s| ensures !OccursAt(s, DefaultCommentIntro, j) {
      if j + 2 <= |s| {
        assert s[j..j + 2][0] == s[j] && s[j..j + 2][1] == s[j + 1];
      }
    }
    SplitFirstAt(s, DefaultCommentIntro, |s|);
    TrimmedPrefix(s, |s|, 0, |s|);
  }

  /** An include line names its file, and the name is opened as it is. */
  lemma IncludeLineName(n: char, from: string)
    requires !IsSpace(n)
    ensures IsAnInclLine(DefaultInclKeyWord, IncludeOf(n)) == (Path(n), true)
    ensures FixIncludeFileName(Path(n), from) == Path(n)
  {
    KeyWordThenName(DefaultInclKeyWord, Path(n));
  }

  /** The keyword, a space and a name that is already trimmed: an include line naming it. */
  lemma KeyWordThenName(keyword: string, name: string)
    requires keyword != "" && name != "" && Trimmed(name)
    ensures IsAnInclLine(keyword, keyword + " " + name) == (name, true)
  {
    var t := " " + name;
    var s := keyword + " " + name;
    assert s == keyword + t;
    assert s[..|keyword|] == keyword;
    assert HasPrefix(s, keyword);
    assert s[|keyword|..] == t;
    assert IsSpace(t[0]) && t[1] == name[0] && t[|t| - 1] == name[|name| - 1];
    TrimSpaceBetween(t, 1, |t|);
    assert t[1..|t|] == name;
    var r := IsAnInclLine(keyword, s);
    assert r.1 && r.0 == TrimSpace(t);
  }

  /** The keyword alone is an include line without a name. */
  lemma BareKeyWordLine()
    ensures StripComment(DefaultCommentIntro, DefaultInclKeyWord) == DefaultInclKeyWord
    ensures IsAnInclLine(DefaultInclKeyWord, DefaultInclKeyWord) == ("", true)
  {
    FirstIntroAt(DefaultCommentIntro, DefaultInclKeyWord, 8);
    TrimmedPrefix(DefaultInclKeyWord, 8, 0, 8);
    assert TrimPrefix(DefaultInclKeyWord, DefaultInclKeyWord) == "";
    TrimSpaceBetween("", 0, 0);
  }

  /** A line that starts with the comment introducer is blank. */
  lemma CommentLine(s: string)
    requires |s| >= 2 && s[..2] == DefaultCommentIntro
    ensures StripComment(DefaultCommentIntro, s) == ""
  {
    FirstIntroAt(DefaultCommentIntro, s, 0);
    TrimmedPrefix(s, 0, 0, 0);
  }

  // ---------------------------------------------------------------------
  // The test table

  /** Expansion leaves every name as it is. */
  ghost predicate NamesAsGiven(env: Env)
  {
    forall name :: env.expand(name) == Some(name)
  }

  /** A name that cannot be expanded (an unknown user's home): one error, nothing counted. */
  lemma UnknownUser(env: Env)
    requires env.expand("~NoSuchUser/NoSuchFile") == None
    ensures var r := ParseFileSpec(NullFP, env, "~NoSuchUser/NoSuchFile", []);
            r.errors == [ExpandFailed(Note("intro", []), "~NoSuchUser/NoSuchFile")] && r.stats == Zero
  {
  }

  /** A file that does not exist: one error, nothing counted. */
  lemma NoSuchFile(env: Env)
    requires env.expand("/x") == Some("/x") && "/x" !in env.files
    ensures var r := ParseFileSpec(NullFP, env, "/x", []);
            r.errors == [OpenFailed("/x")] && r.stats == Zero
  {
  }

  /** An empty file: no error, one file visited, no line read. */
  lemma EmptyFile(env: Env)
    requires NamesAsGiven(env) && env.files == map["/e" := File([], false)]
    ensures var r := ParseFileSpec(NullFP, env, "/e", []);
            r.errors == [] && r.stats == Stats(1, 0, 0)
  {
    assert env.expand("/e") == Some("/e");
    ScanDone(NullFP, env, "/e", "/e", [], 0);
    Opened(NullFP, env, "/e", [], "/e");
  }

  // ---------------------------------------------------------------------
  // Whole files

  /** The location of the first line of the file `a` reached through `chain`, where an include on it leads. */
  function FirstLine(cfg: Config, a: string, chain: seq<Loc>): seq<Loc>
  {
    chain + [Loc(a, 0 + 1, Note(cfg.fileType, chain))]
  }

  /** An empty file `b` included from the first line of `a`: no error, one file visited, nothing read. */
  lemma EmptyRun(cfg: Config, env: Env, a: string, b: string, chain: seq<Loc>)
    requires env.expand(b) == Some(b) && !HasLoop(chain, b) && a != b
    requires b in env.files && env.files[b] == File([], false)
    ensures ParseFileSpec(cfg, env, b, FirstLine(cfg, a, chain)) == Run([], [], Stats(1, 0, 0), 1, [b])
  {
    NamesSnoc(chain, Loc(a, 0 + 1, Note(cfg.fileType, chain)));
    OpenedEmpty(cfg, env, b, FirstLine(cfg, a, chain));
  }

  /** A file `b` that does not exist, included from the first line of `a`: the failed open and nothing else. */
  lemma AbsentRun(cfg: Config, env: Env, a: string, b: string, chain: seq<Loc>)
    requires env.expand(b) == Some(b) && !HasLoop(chain, b) && a != b && b !in env.files
    ensures ParseFileSpec(cfg, env, b, FirstLine(cfg, a, chain)) == Run([OpenFailed(b)], [], Zero, 0, [])
  {
    NamesSnoc(chain, Loc(a, 0 + 1, Note(cfg.fileType, chain)));
  }

  /** A file `b` that is `a` itself or already on `chain`, included from the first line of `a`: the loop and nothing else. */
  lemma LoopRun(cfg: Config, env: Env, a: string, b: string, chain: seq<Loc>)
    requires env.expand(b) == Some(b) && (b == a || HasLoop(chain, b))
    ensures ParseFileSpec(cfg, env, b, FirstLine(cfg, a, chain)) == Run([LoopFound(b, FirstLine(cfg, a, chain))], [], Zero, 0, [])
  {
    NamesSnoc(chain, Loc(a, 0 + 1, Note(cfg.fileType, chain)));
  }

  /** A one-line file `a` reached through `chain` does what its line does, and counts as one file visited. */
  lemma OneLineFile(cfg: Config, env: Env, a: string, chain: seq<Loc>, step: Run)
    requires env.expand(a) == Some(a) && a in env.files && !HasLoop(chain, a)
    requires |env.files[a].lines| == 1 && !env.files[a].readFault
    requires LineStep(cfg, env, a, a, chain, 0) == step
    ensures ParseFileSpec(cfg, env, a, chain)
              == Run(step.errors, step.delivered, step.stats.(filesVisited := step.stats.filesVisited + 1), step.depth + 1,
                     [a] + step.visited)
  {
    ScanLast(cfg, env, a, a, chain, 0);
    Opened(cfg, env, a, chain, a);
    var scan := ScanLines(cfg, env, a, a, chain, 0);
    assert scan.errors == step.errors && scan.delivered == step.delivered;
    assert scan.stats == step.stats && scan.depth == step.depth && scan.visited == step.visited;
  }

  /** A two-line file `a` does what its lines do, in order, and counts as one file visited. */
  lemma TwoLineFile(cfg: Config, env: Env, a: string, first: Run, second: Run)
    requires env.expand(a) == Some(a) && a in env.files
    requires |env.files[a].lines| == 2 && !env.files[a].readFault
    requires LineStep(cfg, env, a, a, [], 0) == first && LineStep(cfg, env, a, a, [], 1) == second
    ensures var r := ParseFileSpec(cfg, env, a, []);
            && r.errors == first.errors + second.errors
            && r.delivered == first.delivered + second.delivered
            && r.stats == first.stats.Plus(second.stats).(filesVisited := first.stats.filesVisited + second.stats.filesVisited + 1)
  {
    ScanLast(cfg, env, a, a, [], 1);
    ScanStep(cfg, env, a, a, [], 0);
    Opened(cfg, env, a, [], a);
    var scan := ScanLines(cfg, env, a, a, [], 0);
    assert scan.errors == first.errors + second.errors;
    assert scan.delivered == first.delivered + second.delivered;
    assert scan.stats == first.stats.Plus(second.stats);
  }

  /** `line` is the only line of the file `a`, which reads without fault. */
  ghost predicate OnlyLine(env: Env, a: string, line: string)
  {
    a in env.files && env.files[a] == File([line], false)
  }

  /** `line` is kept whole, is an include line, and names `target` as opened from the file `from`. */
  predicate IncludeLineOf(cfg: Config, line: string, from: string, target: string)
  {
    && StripComment(cfg.cmtIntro, line) == line && line != ""
    && IsAnInclLine(cfg.inclKeyWord, line) == (target, true) && target != ""
    && FixIncludeFileName(target, from) == target
  }

  /**
    The include line that is the only line of `a`, reached through `chain`,
    reads one line and does what the parse of its target `b` does.
  */
  lemma IncludeChainStep(cfg: Config, env: Env, a: string, b: string, line: string, chain: seq<Loc>, sub: Run)
    requires OnlyLine(env, a, line) && !HasLoop(chain, a)
    requires IncludeLineOf(cfg, line, a, b)
    requires ParseFileSpec(cfg, env, b, FirstLine(cfg, a, chain)) == sub
    ensures LineStep(cfg, env, a, a, chain, 0)
              == Run(sub.errors, sub.delivered, sub.stats.(linesRead := sub.stats.linesRead + 1), sub.depth, sub.visited)
  {
    StepInclude(cfg, env, a, a, chain, 0, line, b, b);
  }

  /**
    The file `a`, reached through `chain`, whose only line includes `b`: what
    the parse of `b` does, with one more file visited and one more line read.
  */
  lemma IncludeFile(cfg: Config, env: Env, a: string, b: string, line: string, chain: seq<Loc>, sub: Run)
    requires env.expand(a) == Some(a) && !HasLoop(chain, a)
    requires OnlyLine(env, a, line) && IncludeLineOf(cfg, line, a, b)
    requires ParseFileSpec(cfg, env, b, FirstLine(cfg, a, chain)) == sub
    ensures var r := ParseFileSpec(cfg, env, a, chain);
            r.errors == sub.errors && r.delivered == sub.delivered && r.stats == sub.stats.(filesVisited := sub.stats.filesVisited + 1, linesRead := sub.stats.linesRead + 1)
  {
    IncludeChainStep(cfg, env, a, b, line, chain, sub);
    var step := Run(sub.errors, sub.delivered, sub.stats.(linesRead := sub.stats.linesRead + 1), sub.depth, sub.visited);
    OneLineFile(cfg, env, a, chain, step);
  }

  /** The parser's default comment introducer and include keyword. */
  predicate DefaultSyntax(cfg: Config)
  {
    cfg.cmtIntro == DefaultCommentIntro && cfg.inclKeyWord == DefaultInclKeyWord
  }

  /** A letter that can name a test file: no separator, no white space. */
  predicate Letter(n: char)
  {
    n != '/' && !IsSpace(n)
  }

  /** The include line of test file `n`, as the default syntax reads it in file `from`. */
  lemma IncludeLine(cfg: Config, n: char, from: string)
    requires DefaultSyntax(cfg) && Letter(n)
    ensures IncludeLineOf(cfg, IncludeOf(n), from, Path(n))
  {
    IncludeLineKept(n);
    IncludeLineName(n, from);
  }

  /** The file `a` whose only line includes the empty file `b`: no error, two files visited, one line read. */
  lemma IncludeOfEmpty(cfg: Config, env: Env, a: string, b: string, line: string)
    requires env.expand(a) == Some(a) && env.expand(b) == Some(b) && a != b
    requires OnlyLine(env, a, line) && IncludeLineOf(cfg, line, a, b)
    requires b in env.files && env.files[b] == File([], false)
    ensures var r := ParseFileSpec(cfg, env, a, []);
            r.errors == [] && r.delivered == [] && r.stats == Stats(2, 1, 0)
  {
    EmptyRun(cfg, env, a, b, []);
    IncludeFile(cfg, env, a, b, line, [], Run([], [], Stats(1, 0, 0), 1, [b]));
  }

  /** The file `a` whose only line includes `a` itself: the loop is one error; one file visited, one line read. */
  lemma IncludeOfSelf(cfg: Config, env: Env, a: string, line: string)
    requires env.expand(a) == Some(a)
    requires OnlyLine(env, a, line) && IncludeLineOf(cfg, line, a, a)
    ensures var r := ParseFileSpec(cfg, env, a, []);
            && |r.errors| == 1 && r.errors[0].LoopFound? && r.errors[0].filename == a
            && r.delivered == [] && r.stats == Stats(1, 1, 0)
  {
    LoopRun(cfg, env, a, a, []);
    IncludeFile(cfg, env, a, a, line, [], Run([LoopFound(a, FirstLine(cfg, a, []))], [], Zero, 0, []));
  }

  /** The file `a` whose only line includes the absent file `b`: the failed open is one error; one line read. */
  lemma IncludeOfAbsent(cfg: Config, env: Env, a: string, b: string, line: string)
    requires env.expand(a) == Some(a) && env.expand(b) == Some(b) && a != b
    requires OnlyLine(env, a, line) && IncludeLineOf(cfg, line, a, b)
    requires b !in env.files
    ensures var r := ParseFileSpec(cfg, env, a, []);
            r.errors == [OpenFailed(b)] && r.delivered == [] && r.stats == Stats(1, 1, 0)
  {
    AbsentRun(cfg, env, a, b, []);
    IncludeFile(cfg, env, a, b, line, [], Run([OpenFailed(b)], [], Zero, 0, []));
  }

  /**
    Files `b` and `c` include each other, and `b` is reached through `chain`,
    which holds neither: the loop back to `b` is one error, two files visited,
    two lines read.
  */
  lemma IncludeOfEachOther(cfg: Config, env: Env, b: string, c: string, lineB: string, lineC: string, chain: seq<Loc>)
    requires env.expand(b) == Some(b) && env.expand(c) == Some(c) && b != c
    requires !HasLoop(chain, b) && !HasLoop(chain, c)
    requires OnlyLine(env, b, lineB) && IncludeLineOf(cfg, lineB, b, c)
    requires OnlyLine(env, c, lineC) && IncludeLineOf(cfg, lineC, c, b)
    ensures var r := ParseFileSpec(cfg, env, b, chain);
            && |r.errors| == 1 && r.errors[0].LoopFound? && r.errors[0].filename == b
            && r.delivered == [] && r.stats == Stats(2, 2, 0)
  {
    IncludeBack(cfg, env, b, c, lineC, chain);
    IncludeFile(cfg, env, b, c, lineB, chain, ParseFileSpec(cfg, env, c, FirstLine(cfg, b, chain)));
  }

  /**
    File `c`, included from the first line of `b`, whose only line includes
    `b` again: the loop back to `b` is one error, one file visited, one line read.
  */
  lemma IncludeBack(cfg: Config, env: Env, b: string, c: string, lineC: string, chain: seq<Loc>)
    requires env.expand(b) == Some(b) && env.expand(c) == Some(c) && b != c && !HasLoop(chain, c)
    requires OnlyLine(env, c, lineC) && IncludeLineOf(cfg, lineC, c, b)
    ensures var r := ParseFileSpec(cfg, env, c, FirstLine(cfg, b, chain));
            && r.errors == [LoopFound(b, FirstLine(cfg, c, FirstLine(cfg, b, chain)))]
            && r.delivered == [] && r.stats == Stats(1, 1, 0)
  {
    var c2 := FirstLine(cfg, b, chain);
    NamesSnoc(chain, Loc(b, 0 + 1, Note(cfg.fileType, chain)));
    LoopRun(cfg, env, c, b, c2);
    IncludeFile(cfg, env, c, b, lineC, c2, Run([LoopFound(b, FirstLine(cfg, c, c2))], [], Zero, 0, []));
  }

  /** The file `a` includes `b`, and `b` and `c` include each other: one error; three files visited, three lines read. */
  lemma IncludeOfLoop(cfg: Config, env: Env, a: string, b: string, c: string, lineA: string, lineB: string, lineC: string)
    requires env.expand(a) == Some(a) && env.expand(b) == Some(b) && env.expand(c) == Some(c)
    requires a != b && b != c && a != c
    requires OnlyLine(env, a, lineA) && IncludeLineOf(cfg, lineA, a, b)
    requires OnlyLine(env, b, lineB) && IncludeLineOf(cfg, lineB, b, c)
    requires OnlyLine(env, c, lineC) && IncludeLineOf(cfg, lineC, c, b)
    ensures var r := ParseFileSpec(cfg, env, a, []);
            && |r.errors| == 1 && r.errors[0].LoopFound? && r.errors[0].filename == b
            && r.delivered == [] && r.stats == Stats(3, 3, 0)
  {
    var chain := FirstLine(cfg, a, []);
    NamesSnoc([], Loc(a, 0 + 1, Note(cfg.fileType, [])));
    assert Names(chain) == {a};
    IncludeOfEachOther(cfg, env, b, c, lineB, lineC, chain);
    var sub := ParseFileSpec(cfg, env, b, chain);
    IncludeFile(cfg, env, a, b, lineA, [], sub);
  }

  /**
    File `c`, included from the first line of `b`, whose only line includes
    `target`, a name already on its chain: the loop is one error, one file
    visited, one line read.
  */
  lemma IncludeUpChain(cfg: Config, env: Env, b: string, c: string, target: string, lineC: string, chain: seq<Loc>)
    requires env.expand(c) == Some(c) && env.expand(target) == Some(target) && b != c && !HasLoop(chain, c)
    requires HasLoop(FirstLine(cfg, b, chain), target)
    requires OnlyLine(env, c, lineC) && IncludeLineOf(cfg, lineC, c, target)
    ensures var r := ParseFileSpec(cfg, env, c, FirstLine(cfg, b, chain));
            && r.errors == [LoopFound(target, FirstLine(cfg, c, FirstLine(cfg, b, chain)))]
            && r.delivered == [] && r.stats == Stats(1, 1, 0)
  {
    var c2 := FirstLine(cfg, b, chain);
    NamesSnoc(chain, Loc(b, 0 + 1, Note(cfg.fileType, chain)));
    LoopRun(cfg, env, c, target, c2);
    IncludeFile(cfg, env, c, target, lineC, c2, Run([LoopFound(target, FirstLine(cfg, c, c2))], [], Zero, 0, []));
  }

  /**
    The file `a` includes `b`, `b` includes `c` and `c` includes `a` again:
    one error, the loop back to `a`; three files visited, three lines read.
  */
  lemma IncludeOfCycle(cfg: Config, env: Env, a: string, b: string, c: string, lineA: string, lineB: string, lineC: string)
    requires env.expand(a) == Some(a) && env.expand(b) == Some(b) && env.expand(c) == Some(c)
    requires a != b && b != c && a != c
    requires OnlyLine(env, a, lineA) && IncludeLineOf(cfg, lineA, a, b)
    requires OnlyLine(env, b, lineB) && IncludeLineOf(cfg, lineB, b, c)
    requires OnlyLine(env, c, lineC) && IncludeLineOf(cfg, lineC, c, a)
    ensures var r := ParseFileSpec(cfg, env, a, []);
            && |r.errors| == 1 && r.errors[0].LoopFound? && r.errors[0].filename == a
            && r.delivered == [] && r.stats == Stats(3, 3, 0)
  {
    var chain := FirstLine(cfg, a, []);
    NamesSnoc([], Loc(a, 0 + 1, Note(cfg.fileType, [])));
    assert Names(chain) == {a};
    IncludeThenUpChain(cfg, env, b, c, a, lineB, lineC, chain);
    IncludeFile(cfg, env, a, b, lineA, [], ParseFileSpec(cfg, env, b, chain));
  }

  /**
    File `b`, reached through `chain`, includes `c`, whose only line includes
    `target`, a name on `chain`: the loop back to `target` is one error, two
    files visited, two lines read.
  */
  lemma IncludeThenUpChain(cfg: Config, env: Env, b: string, c: string, target: string, lineB: string, lineC: string,
                           chain: seq<Loc>)
    requires env.expand(b) == Some(b) && env.expand(c) == Some(c) && env.expand(target) == Some(target) && b != c
    requires !HasLoop(chain, b) && !HasLoop(chain, c) && HasLoop(chain, target)
    requires OnlyLine(env, b, lineB) && IncludeLineOf(cfg, lineB, b, c)
    requires OnlyLine(env, c, lineC) && IncludeLineOf(cfg, lineC, c, target)
    ensures var r := ParseFileSpec(cfg, env, b, chain);
            && |r.errors| == 1 && r.errors[0].LoopFound? && r.errors[0].filename == target
            && r.delivered == [] && r.stats == Stats(2, 2, 0)
  {
    NamesSnoc(chain, Loc(b, 0 + 1, Note(cfg.fileType, chain)));
    IncludeUpChain(cfg, env, b, c, target, lineC, chain);
    IncludeFile(cfg, env, b, c, lineB, chain, ParseFileSpec(cfg, env, c, FirstLine(cfg, b, chain)));
  }

  // ---------------------------------------------------------------------
  // Test files with one-letter names

  /** File `m` includes the empty file `n`: no error, two files visited, one line read. */
  lemma IncludesEmpty(cfg: Config, env: Env, m: char, n: char)
    requires DefaultSyntax(cfg) && NamesAsGiven(env)
    requires m != n && Letter(n)
    requires Path(m) in env.files && env.files[Path(m)] == File([IncludeOf(n)], false)
    requires Path(n) in env.files && env.files[Path(n)] == File([], false)
    ensures var r := ParseFileSpec(cfg, env, Path(m), []);
            r.errors == [] && r.delivered == [] && r.stats == Stats(2, 1, 0)
  {
    IncludeLine(cfg, n, Path(m));
    PathsDiffer(m, n);
    assert env.expand(Path(m)) == Some(Path(m)) && env.expand(Path(n)) == Some(Path(n));
    IncludeOfEmpty(cfg, env, Path(m), Path(n), IncludeOf(n));
  }

  /** File `m` includes itself: the loop is one error; one file visited, one line read. */
  lemma IncludesItself(cfg: Config, env: Env, m: char)
    requires DefaultSyntax(cfg) && NamesAsGiven(env)
    requires Letter(m)
    requires Path(m) in env.files && env.files[Path(m)] == File([IncludeOf(m)], false)
    ensures var r := ParseFileSpec(cfg, env, Path(m), []);
            && |r.errors| == 1 && r.errors[0].LoopFound? && r.errors[0].filename == Path(m)
            && r.delivered == [] && r.stats == Stats(1, 1, 0)
  {
    IncludeLine(cfg, m, Path(m));
    assert env.expand(Path(m)) == Some(Path(m));
    IncludeOfSelf(cfg, env, Path(m), IncludeOf(m));
  }

  /** File `m` includes the absent file `n`: the failed open is one error; one file visited, one line read. */
  lemma IncludesAbsent(cfg: Config, env: Env, m: char, n: char)
    requires DefaultSyntax(cfg) && NamesAsGiven(env)
    requires m != n && Letter(n)
    requires Path(m) in env.files && env.files[Path(m)] == File([IncludeOf(n)], false)
    requires Path(n) !in env.files
    ensures var r := ParseFileSpec(cfg, env, Path(m), []);
            r.errors == [OpenFailed(Path(n))] && r.delivered == [] && r.stats == Stats(1, 1, 0)
  {
    IncludeLine(cfg, n, Path(m));
    PathsDiffer(m, n);
    assert env.expand(Path(m)) == Some(Path(m)) && env.expand(Path(n)) == Some(Path(n));
    IncludeOfAbsent(cfg, env, Path(m), Path(n), IncludeOf(n));
  }

  /** File `m` holds the include keyword alone: one error for the missing name; one line read. */
  lemma IncludesNothing(cfg: Config, env: Env, m: char)
    requires DefaultSyntax(cfg) && NamesAsGiven(env)
    requires Path(m) in env.files && env.files[Path(m)] == File([DefaultInclKeyWord], false)
    ensures var r := ParseFileSpec(cfg, env, Path(m), []);
            && r.errors == [MissingInclName(Loc(Path(m), 1, Note(cfg.fileType, [])), DefaultInclKeyWord)]
            && r.delivered == [] && r.stats == Stats(1, 1, 0)
  {
    var a := Path(m);
    BareKeyWordLine();
    assert env.expand(a) == Some(a);
    StepMissingName(cfg, env, a, a, [], 0);
    OneLineFile(cfg, env, a, [], LineStep(cfg, env, a, a, [], 0));
  }

  /**
    File `m` includes `n`, `n` includes `o` and `o` includes `n` again: the
    loop is one error; three files visited, three lines read.
  */
  lemma IncludesLoopBack(cfg: Config, env: Env, m: char, n: char, o: char)
    requires DefaultSyntax(cfg) && NamesAsGiven(env)
    requires m != n && n != o && m != o && Letter(n) && Letter(o)
    requires Path(m) in env.files && env.files[Path(m)] == File([IncludeOf(n)], false)
    requires Path(n) in env.files && env.files[Path(n)] == File([IncludeOf(o)], false)
    requires Path(o) in env.files && env.files[Path(o)] == File([IncludeOf(n)], false)
    ensures var r := ParseFileSpec(cfg, env, Path(m), []);
            && |r.errors| == 1 && r.errors[0].LoopFound? && r.errors[0].filename == Path(n)
            && r.delivered == [] && r.stats == Stats(3, 3, 0)
  {
    IncludeLine(cfg, n, Path(m));
    IncludeLine(cfg, o, Path(n));
    IncludeLine(cfg, n, Path(o));
    PathsDiffer(m, n);
    PathsDiffer(m, o);
    PathsDiffer(n, o);
    assert env.expand(Path(m)) == Some(Path(m)) && env.expand(Path(n)) == Some(Path(n));
    assert env.expand(Path(o)) == Some(Path(o));
    IncludeOfLoop(cfg, env, Path(m), Path(n), Path(o), IncludeOf(n), IncludeOf(o), IncludeOf(n));
  }

  /**
    File `m` includes `n`, `n` includes `o` and `o` includes `m` again: the
    loop is one error; three files visited, three lines read.
  */
  lemma IncludesCycle(cfg: Config, env: Env, m: char, n: char, o: char)
    requires DefaultSyntax(cfg) && NamesAsGiven(env)
    requires m != n && n != o && m != o && Letter(m) && Letter(n) && Letter(o)
    requires Path(m) in env.files && env.files[Path(m)] == File([IncludeOf(n)], false)
    requires Path(n) in env.files && env.files[Path(n)] == File([IncludeOf(o)], false)
    requires Path(o) in env.files && env.files[Path(o)] == File([IncludeOf(m)], false)
    ensures var r := ParseFileSpec(cfg, env, Path(m), []);
            && |r.errors| == 1 && r.errors[0].LoopFound? && r.errors[0].filename == Path(m)
            && r.delivered == [] && r.stats == Stats(3, 3, 0)
  {
    IncludeLine(cfg, n, Path(m));
    IncludeLine(cfg, o, Path(n));
    IncludeLine(cfg, m, Path(o));
    PathsDiffer(m, n);
    PathsDiffer(m, o);
    PathsDiffer(n, o);
    assert env.expand(Path(m)) == Some(Path(m)) && env.expand(Path(n)) == Some(Path(n));
    assert env.expand(Path(o)) == Some(Path(o));
    IncludeOfCycle(cfg, env, Path(m), Path(n), Path(o), IncludeOf(n), IncludeOf(o), IncludeOf(m));
  }

  /** File `m` holds a comment line and then `content`: the content line alone reaches the handler. */
  lemma CommentThenContent(cfg: Config, env: Env, m: char, comment: string, content: string)
    requires NamesAsGiven(env) && AcceptsAll(cfg.lineParser)
    requires StripComment(cfg.cmtIntro, comment) == ""
    requires StripComment(cfg.cmtIntro, content) == content && content != ""
    requires !IsAnInclLine(cfg.inclKeyWord, content).1
    requires Path(m) in env.files && env.files[Path(m)] == File([comment, content], false)
    ensures var r := ParseFileSpec(cfg, env, Path(m), []);
            && r.errors == []
            && r.delivered == [Delivery(content, Loc(Path(m), 2, Note(cfg.fileType, [])))]
            && r.stats == Stats(1, 2, 1)
  {
    var a := Path(m);
    assert env.expand(a) == Some(a);
    var loc := Loc(a, 1 + 1, Note(cfg.fileType, []));
    assert cfg.lineParser(content, loc) == None;
    StepBlank(cfg, env, a, a, [], 0);
    StepContent(cfg, env, a, a, [], 1, content);
    TwoLineFile(cfg, env, a, Run([], [], Stats(0, 1, 0), 0, []), Run([], [Delivery(content, loc)], Stats(0, 1, 1), 0, []));
  }

  // ---------------------------------------------------------------------
  // The test table, with the null handler

  /** A file that includes an empty file: no error, two files visited, one line read. */
  lemma OneInclude(env: Env)
    requires NamesAsGiven(env)
    requires Path('a') in env.files && env.files[Path('a')] == File([IncludeOf('e')], false)
    requires Path('e') in env.files && env.files[Path('e')] == File([], false)
    ensures var r := ParseFileSpec(NullFP, env, Path('a'), []);
            r.errors == [] && r.stats == Stats(2, 1, 0)
  {
    IncludesEmpty(NullFP, env, 'a', 'e');
  }

  /** A file that includes itself: one error, one file visited, one line read. */
  lemma IncludeLoopSelf(env: Env)
    requires NamesAsGiven(env)
    requires Path('a') in env.files && env.files[Path('a')] == File([IncludeOf('a')], false)
    ensures var r := ParseFileSpec(NullFP, env, Path('a'), []);
            |r.errors| == 1 && r.stats == Stats(1, 1, 0)
  {
    IncludesItself(NullFP, env, 'a');
  }

  /** A loop that closes below the start file: one error, three files visited, three lines read. */
  lemma IncludeLoopStart(env: Env)
    requires NamesAsGiven(env)
    requires Path('a') in env.files && env.files[Path('a')] == File([IncludeOf('b')], false)
    requires Path('b') in env.files && env.files[Path('b')] == File([IncludeOf('c')], false)
    requires Path('c') in env.files && env.files[Path('c')] == File([IncludeOf('b')], false)
    ensures var r := ParseFileSpec(NullFP, env, Path('a'), []);
            |r.errors| == 1 && r.stats == Stats(3, 3, 0)
  {
    IncludesLoopBack(NullFP, env, 'a', 'b', 'c');
  }

  /** A loop that closes at the start file: one error, three files visited, three lines read. */
  lemma IncludeLoopToStart(env: Env)
    requires NamesAsGiven(env)
    requires Path('a') in env.files && env.files[Path('a')] == File([IncludeOf('b')], false)
    requires Path('b') in env.files && env.files[Path('b')] == File([IncludeOf('c')], false)
    requires Path('c') in env.files && env.files[Path('c')] == File([IncludeOf('a')], false)
    ensures var r := ParseFileSpec(NullFP, env, Path('a'), []);
            |r.errors| == 1 && r.stats == Stats(3, 3, 0)
  {
    IncludesCycle(NullFP, env, 'a', 'b', 'c');
  }

  /** An include line without a file name: one error, one file visited, one line read. */
  lemma BadIncludeFormat(env: Env)
    requires NamesAsGiven(env)
    requires Path('a') in env.files && env.files[Path('a')] == File([DefaultInclKeyWord], false)
    ensures var r := ParseFileSpec(NullFP, env, Path('a'), []);
            |r.errors| == 1 && r.stats == Stats(1, 1, 0)
  {
    IncludesNothing(NullFP, env, 'a');
  }

  /** An include of a file that does not exist: one error, one file visited, one line read. */
  lemma BadIncludeFileNonexistent(env: Env)
    requires NamesAsGiven(env)
    requires Path('a') in env.files && env.files[Path('a')] == File([IncludeOf('x')], false)
    requires Path('x') !in env.files
    ensures var r := ParseFileSpec(NullFP, env, Path('a'), []);
            |r.errors| == 1 && r.stats == Stats(1, 1, 0)
  {
    IncludesAbsent(NullFP, env, 'a', 'x');
  }

  /** A comment line and a content line: no error; two lines read, one of them parsed. */
  lemma FileWithContent(env: Env)
    requires NamesAsGiven(env)
    requires Path('a') in env.files && env.files[Path('a')] == File(["// a comment", "content"], false)
    ensures var r := ParseFileSpec(NullFP, env, Path('a'), []);
            r.errors == [] && r.stats == Stats(1, 2, 1)
  {
    CommentLine("// a comment");
    PlainLine("content");
    NullParserAcceptsAll();
    CommentThenContent(NullFP, env, 'a', "// a comment", "content");
  }

  // ---------------------------------------------------------------------
  // Splicing and repeated includes

  /** `line` survives stripping unchanged, is not blank and is not an include line. */
  predicate ContentLine(cfg: Config, line: string)
  {
    StripComment(cfg.cmtIntro, line) == line && line != "" && !IsAnInclLine(cfg.inclKeyWord, line).1
  }

  /** A content line at index `i` of the open file `f`: read, parsed and handed to a handler that accepts it. */
  lemma ContentStep(cfg: Config, env: Env, f: string, chain: seq<Loc>, i: nat)
    requires AcceptsAll(cfg.lineParser)
    requires f in env.files && !HasLoop(chain, f) && i < |env.files[f].lines|
    requires ContentLine(cfg, env.files[f].lines[i])
    ensures LineStep(cfg, env, f, f, chain, i)
              == Run([], [Delivery(env.files[f].lines[i], Loc(f, i + 1, Note(cfg.fileType, chain)))], Stats(0, 1, 1), 0, [])
  {
    var line := env.files[f].lines[i];
    StepContent(cfg, env, f, f, chain, i, line);
    assert cfg.lineParser(line, Loc(f, i + 1, Note(cfg.fileType, chain))) == None;
  }

  /**
    The shape of the walk-through: `r` holds a content line, a line that is
    blank once stripped, a content line, an include of `s` and a content
    line; `s` holds one content line.
  */
  ghost predicate SpliceWorld(cfg: Config, env: Env, r: string, s: string)
  {
    && AcceptsAll(cfg.lineParser)
    && env.expand(r) == Some(r) && env.expand(s) == Some(s) && r != s
    && r in env.files && |env.files[r].lines| == 5 && !env.files[r].readFault
    && s in env.files && |env.files[s].lines| == 1 && !env.files[s].readFault
    && ContentLine(cfg, env.files[r].lines[0])
    && StripComment(cfg.cmtIntro, env.files[r].lines[1]) == ""
    && ContentLine(cfg, env.files[r].lines[2])
    && IncludeLineOf(cfg, env.files[r].lines[3], r, s)
    && ContentLine(cfg, env.files[r].lines[4])
    && ContentLine(cfg, env.files[s].lines[0])
  }

  /** The location of the include line of `r`. */
  function InclLoc(cfg: Config, r: string): Loc
  {
    Loc(r, 3 + 1, Note(cfg.fileType, []))
  }

  /** What the walk-through hands to the handler: `s`'s line spliced in where `r` includes it. */
  function Spliced(cfg: Config, env: Env, r: string, s: string): seq<Delivery>
    requires r in env.files && |env.files[r].lines| == 5
    requires s in env.files && |env.files[s].lines| == 1
  {
    var top := Note(cfg.fileType, []);
    [Delivery(env.files[r].lines[0], Loc(r, 1, top)),
     Delivery(env.files[r].lines[2], Loc(r, 3, top)),
     Delivery(env.files[s].lines[0], Loc(s, 1, Note(cfg.fileType, [InclLoc(cfg, r)]))),
     Delivery(env.files[r].lines[4], Loc(r, 5, top))]
  }

  /** The include line of `r` does what the parse of `s` does (one line handed on), and counts as read. */
  lemma SpliceInclude(cfg: Config, env: Env, r: string, s: string)
    requires SpliceWorld(cfg, env, r, s)
    ensures LineStep(cfg, env, r, r, [], 3) == Run([], [Spliced(cfg, env, r, s)[2]], Stats(1, 2, 1), 1, [s])
  {
    var inclLoc := InclLoc(cfg, r);
    NamesSnoc([], inclLoc);
    ContentStep(cfg, env, s, [inclLoc], 0);
    OneLineFile(cfg, env, s, [inclLoc], Run([], [Spliced(cfg, env, r, s)[2]], Stats(0, 1, 1), 0, []));
    assert [] + [Loc(r, 3 + 1, Note(cfg.fileType, []))] == [inclLoc];
    StepInclude(cfg, env, r, r, [], 3, env.files[r].lines[3], s, s);
  }

  /** The last two lines of `r`: the included line, then the last content line. */
  lemma SpliceTail(cfg: Config, env: Env, r: string, s: string)
    requires SpliceWorld(cfg, env, r, s)
    ensures ScanLines(cfg, env, r, r, [], 3) == Run([], Spliced(cfg, env, r, s)[2..], Stats(1, 3, 2), 1, [s])
  {
    var sp := Spliced(cfg, env, r, s);
    SpliceInclude(cfg, env, r, s);
    ContentStep(cfg, env, r, [], 4);
    ScanLast(cfg, env, r, r, [], 4);
    ScanStep(cfg, env, r, r, [], 3);
    assert [sp[2]] + [sp[3]] == sp[2..];
  }

  /** All of `r`: a content line, the dropped blank one, a content line, then the tail. */
  lemma SpliceScan(cfg: Config, env: Env, r: string, s: string)
    requires SpliceWorld(cfg, env, r, s)
    ensures ScanLines(cfg, env, r, r, [], 0) == Run([], Spliced(cfg, env, r, s), Stats(1, 6, 4), 1, [s])
  {
    var sp := Spliced(cfg, env, r, s);
    SpliceMiddle(cfg, env, r, s);
    ContentStep(cfg, env, r, [], 0);
    ScanStep(cfg, env, r, r, [], 0);
    assert [sp[0]] + sp[1..] == sp;
  }

  /** `r` from its blank line on: the blank line is read but not handed on. */
  lemma SpliceMiddle(cfg: Config, env: Env, r: string, s: string)
    requires SpliceWorld(cfg, env, r, s)
    ensures ScanLines(cfg, env, r, r, [], 1) == Run([], Spliced(cfg, env, r, s)[1..], Stats(1, 5, 3), 1, [s])
  {
    var sp := Spliced(cfg, env, r, s);
    SpliceTail(cfg, env, r, s);
    ContentStep(cfg, env, r, [], 2);
    ScanStep(cfg, env, r, r, [], 2);
    StepBlank(cfg, env, r, r, [], 1);
    ScanStep(cfg, env, r, r, [], 1);
    assert [] + ([sp[1]] + sp[2..]) == sp[1..];
  }

  /**
    An included file is spliced in at the include line: the handler receives
    the first two content lines of `r`, the line of `s` (located in `s`, with
    the include line of `r` on its chain) and the last line of `r`, in that
    order; both files are visited, all six lines read, four parsed, and there
    is no error.
  */
  lemma SplicedAtInclude(cfg: Config, env: Env, r: string, s: string)
    requires SpliceWorld(cfg, env, r, s)
    ensures var res := ParseFileSpec(cfg, env, r, []);
            && res.errors == [] && res.delivered == Spliced(cfg, env, r, s)
            && res.stats == Stats(2, 6, 4) && res.visited == [r, s]
  {
    SpliceScan(cfg, env, r, s);
    Opened(cfg, env, r, [], r);
  }

  /** The shape of a diamond: `a` includes `b` and then `c`, and both include the empty file `d`. */
  ghost predicate DiamondWorld(cfg: Config, env: Env, a: string, b: string, c: string, d: string)
  {
    && env.expand(a) == Some(a) && env.expand(b) == Some(b) && env.expand(c) == Some(c) && env.expand(d) == Some(d)
    && a != b && a != c && a != d && b != d && c != d
    && a in env.files && |env.files[a].lines| == 2 && !env.files[a].readFault
    && IncludeLineOf(cfg, env.files[a].lines[0], a, b) && IncludeLineOf(cfg, env.files[a].lines[1], a, c)
    && IncludesOnly(cfg, env, b, d) && IncludesOnly(cfg, env, c, d)
    && d in env.files && env.files[d] == File([], false)
  }

  /** The only line of file `n` includes `d`. */
  ghost predicate IncludesOnly(cfg: Config, env: Env, n: string, d: string)
  {
    n in env.files && |env.files[n].lines| == 1 && !env.files[n].readFault
    && IncludeLineOf(cfg, env.files[n].lines[0], n, d)
  }

  /** The include line at index `i` of `a`, naming `n`, whose only line includes the empty `d`: two files, two lines read. */
  lemma DiamondSide(cfg: Config, env: Env, a: string, n: string, d: string, i: nat)
    requires env.expand(n) == Some(n) && env.expand(d) == Some(d) && a != n && a != d && n != d
    requires a in env.files && i < |env.files[a].lines| && IncludeLineOf(cfg, env.files[a].lines[i], a, n)
    requires IncludesOnly(cfg, env, n, d)
    requires d in env.files && env.files[d] == File([], false)
    ensures var step := LineStep(cfg, env, a, a, [], i);
            step.errors == [] && step.delivered == [] && step.stats == Stats(2, 2, 0)
  {
    var via := [Loc(a, i + 1, Note(cfg.fileType, []))];
    NamesSnoc([], via[0]);
    DiamondBranch(cfg, env, n, d, via);
    assert [] + via == via;
    StepInclude(cfg, env, a, a, [], i, env.files[a].lines[i], n, n);
  }

  /** File `n`, whose only line includes the empty `d`, parsed below `via`: two files, one line read. */
  lemma DiamondBranch(cfg: Config, env: Env, n: string, d: string, via: seq<Loc>)
    requires env.expand(n) == Some(n) && env.expand(d) == Some(d) && n != d
    requires !HasLoop(via, n) && !HasLoop(via, d)
    requires IncludesOnly(cfg, env, n, d)
    requires d in env.files && env.files[d] == File([], false)
    ensures var sub := ParseFileSpec(cfg, env, n, via);
            sub.errors == [] && sub.delivered == [] && sub.stats == Stats(2, 1, 0)
  {
    assert OnlyLine(env, n, env.files[n].lines[0]);
    EmptyRun(cfg, env, n, d, via);
    IncludeFile(cfg, env, n, d, env.files[n].lines[0], via, Run([], [], Stats(1, 0, 0), 1, [d]));
  }

  /**
    A diamond is no loop, since `d` is never on its own chain: there is no
    error, and `d` counts twice among the five files visited.
  */
  lemma DiamondNotALoop(cfg: Config, env: Env, a: string, b: string, c: string, d: string)
    requires DiamondWorld(cfg, env, a, b, c, d)
    ensures var r := ParseFileSpec(cfg, env, a, []);
            r.errors == [] && r.delivered == [] && r.stats == Stats(5, 4, 0)
  {
    DiamondSide(cfg, env, a, b, d, 0);
    DiamondSide(cfg, env, a, c, d, 1);
    TwoLineFile(cfg, env, a, LineStep(cfg, env, a, a, [], 0), LineStep(cfg, env, a, a, [], 1));
  }

  // ---------------------------------------------------------------------
  // Includes within includes

  /** The file `a` holds an include of `b`, then a content line. */
  ghost predicate IncludeThenContentFile(cfg: Config, env: Env, a: string, b: string)
  {
    && a in env.files && |env.files[a].lines| == 2 && !env.files[a].readFault
    && IncludeLineOf(cfg, env.files[a].lines[0], a, b)
    && ContentLine(cfg, env.files[a].lines[1])
  }

  /**
    The file `a`, reached through `chain`, that includes `b` and then holds a
    content line: what the parse of `b` does, then that line, located in `a`
    with `chain` as its chain; one more file visited and two more lines read.
  */
  lemma IncludeThenContent(cfg: Config, env: Env, a: string, b: string, chain: seq<Loc>, sub: Run)
    requires AcceptsAll(cfg.lineParser)
    requires env.expand(a) == Some(a) && !HasLoop(chain, a)
    requires IncludeThenContentFile(cfg, env, a, b)
    requires ParseFileSpec(cfg, env, b, FirstLine(cfg, a, chain)) == sub
    ensures var res := ParseFileSpec(cfg, env, a, chain);
            && res.errors == sub.errors
            && res.delivered == sub.delivered + [Delivery(env.files[a].lines[1], Loc(a, 2, Note(cfg.fileType, chain)))]
            && res.stats == Stats(sub.stats.filesVisited + 1, sub.stats.linesRead + 2, sub.stats.linesParsed + 1)
            && res.visited == [a] + sub.visited
  {
    var d := Delivery(env.files[a].lines[1], Loc(a, 2, Note(cfg.fileType, chain)));
    var first := Run(sub.errors, sub.delivered, sub.stats.(linesRead := sub.stats.linesRead + 1), sub.depth, sub.visited);
    StepInclude(cfg, env, a, a, chain, 0, env.files[a].lines[0], b, b);
    ContentStep(cfg, env, a, chain, 1);
    TwoLinesIn(cfg, env, a, chain, first, Run([], [d], Stats(0, 1, 1), 0, []));
    ThenOneLine(a, first, d);
  }

  /** The file in which a run is done: one more file visited, one level deeper, and the file first among those opened. */
  function InFile(fixed: string, scan: Run): Run
  {
    Run(scan.errors, scan.delivered, scan.stats.(filesVisited := scan.stats.filesVisited + 1), scan.depth + 1,
        [fixed] + scan.visited)
  }

  /** A two-line file `a`, reached through `chain`, does its first line and then its second. */
  lemma TwoLinesIn(cfg: Config, env: Env, a: string, chain: seq<Loc>, first: Run, second: Run)
    requires env.expand(a) == Some(a) && a in env.files && !HasLoop(chain, a)
    requires |env.files[a].lines| == 2 && !env.files[a].readFault
    requires LineStep(cfg, env, a, a, chain, 0) == first && LineStep(cfg, env, a, a, chain, 1) == second
    ensures ParseFileSpec(cfg, env, a, chain) == InFile(a, first.Then(second))
  {
    ScanLast(cfg, env, a, a, chain, 1);
    ScanStep(cfg, env, a, a, chain, 0);
    Opened(cfg, env, a, chain, a);
  }

  /** A run in file `a` followed by one content line handed on: that line appended, one more line read and parsed. */
  lemma ThenOneLine(a: string, x: Run, d: Delivery)
    ensures var r := InFile(a, x.Then(Run([], [d], Stats(0, 1, 1), 0, [])));
            && r.errors == x.errors && r.delivered == x.delivered + [d]
            && r.stats == Stats(x.stats.filesVisited + 1, x.stats.linesRead + 1, x.stats.linesParsed + 1)
            && r.visited == [a] + x.visited
  {
    assert x.errors + [] == x.errors && x.visited + [] == x.visited;
  }

  /**
    Includes two deep: `r` includes `s` and then holds a content line, `s`
    includes `u` and then holds a content line, and `u` holds one content line.
  */
  ghost predicate NestedWorld(cfg: Config, env: Env, r: string, s: string, u: string)
  {
    && AcceptsAll(cfg.lineParser)
    && env.expand(r) == Some(r) && env.expand(s) == Some(s) && env.expand(u) == Some(u)
    && r != s && r != u && s != u
    && IncludeThenContentFile(cfg, env, r, s) && IncludeThenContentFile(cfg, env, s, u)
    && ContentOnly(cfg, env, u)
  }

  /** The file `u` holds one content line. */
  ghost predicate ContentOnly(cfg: Config, env: Env, u: string)
  {
    u in env.files && |env.files[u].lines| == 1 && !env.files[u].readFault && ContentLine(cfg, env.files[u].lines[0])
  }

  /** The chain of the lines of `u`: the include line of `r`, then that of `s`. */
  function NestedChain(cfg: Config, r: string, s: string): seq<Loc>
  {
    FirstLine(cfg, s, FirstLine(cfg, r, []))
  }

  /**
    What `s`, reached through `chain`, hands to the handler when it includes
    the one-line file `u` and then holds a content line: the line of `u`,
    with the include line of `s` on its chain, then the last line of `s`.
  */
  function IncludedThenOwn(cfg: Config, env: Env, s: string, u: string, chain: seq<Loc>): seq<Delivery>
    requires s in env.files && |env.files[s].lines| == 2 && u in env.files && |env.files[u].lines| == 1
  {
    [Delivery(env.files[u].lines[0], Loc(u, 1, Note(cfg.fileType, FirstLine(cfg, s, chain)))),
     Delivery(env.files[s].lines[1], Loc(s, 2, Note(cfg.fileType, chain)))]
  }

  /**
    What the nested includes hand to the handler: the line of `u` first, with
    both include lines on its chain, then the rest of `s`, then the rest of `r`.
  */
  function Nested(cfg: Config, env: Env, r: string, s: string, u: string): seq<Delivery>
    requires r in env.files && |env.files[r].lines| == 2 && s in env.files && |env.files[s].lines| == 2
    requires u in env.files && |env.files[u].lines| == 1
  {
    IncludedThenOwn(cfg, env, s, u, FirstLine(cfg, r, [])) + [Delivery(env.files[r].lines[1], Loc(r, 2, Note(cfg.fileType, [])))]
  }

  /** A file `u` whose one line is a content line, reached through `chain`: that line, located in `u`, and nothing else. */
  lemma ContentOnlyFile(cfg: Config, env: Env, u: string, chain: seq<Loc>)
    requires AcceptsAll(cfg.lineParser)
    requires env.expand(u) == Some(u) && !HasLoop(chain, u)
    requires ContentOnly(cfg, env, u)
    ensures ParseFileSpec(cfg, env, u, chain)
              == Run([], [Delivery(env.files[u].lines[0], Loc(u, 1, Note(cfg.fileType, chain)))], Stats(1, 1, 1), 1, [u])
  {
    ContentStep(cfg, env, u, chain, 0);
    OneLineFile(cfg, env, u, chain, Run([], [Delivery(env.files[u].lines[0], Loc(u, 0 + 1, Note(cfg.fileType, chain)))], Stats(0, 1, 1), 0, []));
  }

  /** Neither `s` nor `u` is on the chain of the first line of `r`, and `u` is not on that of the first line of `s` below it. */
  lemma NestedChains(cfg: Config, r: string, s: string, u: string)
    requires r != s && r != u && s != u
    ensures !HasLoop(FirstLine(cfg, r, []), s) && !HasLoop(FirstLine(cfg, r, []), u)
    ensures !HasLoop(NestedChain(cfg, r, s), u)
  {
    var rChain := FirstLine(cfg, r, []);
    var uChain := NestedChain(cfg, r, s);
    NamesSnoc([], rChain[0]);
    NamesSnoc(rChain, uChain[|rChain|]);
    assert [] + [rChain[0]] == rChain && rChain + [uChain[|rChain|]] == uChain;
  }

  /**
    The file `s`, reached through `chain`, that includes the one-line file
    `u` and then holds a content line: the line of `u`, then that of `s`;
    two files visited, three lines read, two parsed.
  */
  lemma IncludeOfContentOnly(cfg: Config, env: Env, s: string, u: string, chain: seq<Loc>)
    requires AcceptsAll(cfg.lineParser)
    requires env.expand(s) == Some(s) && env.expand(u) == Some(u)
    requires !HasLoop(chain, s) && !HasLoop(FirstLine(cfg, s, chain), u)
    requires IncludeThenContentFile(cfg, env, s, u)
    requires ContentOnly(cfg, env, u)
    ensures var res := ParseFileSpec(cfg, env, s, chain);
            && res.errors == []
            && res.delivered == IncludedThenOwn(cfg, env, s, u, chain)
            && res.stats == Stats(2, 3, 2) && res.visited == [s, u]
  {
    var d := Delivery(env.files[u].lines[0], Loc(u, 1, Note(cfg.fileType, FirstLine(cfg, s, chain))));
    ContentOnlyFile(cfg, env, u, FirstLine(cfg, s, chain));
    IncludeThenContent(cfg, env, s, u, chain, Run([], [d], Stats(1, 1, 1), 1, [u]));
  }

  /**
    An include inside an included file is spliced in at its own include
    line: the handler receives the line of `u`, then the last line of `s`,
    then the last line of `r`, each located in its own file with the include
    lines that led to it on its chain; three files visited, five lines read,
    three parsed, and no error.
  */
  lemma NestedSplice(cfg: Config, env: Env, r: string, s: string, u: string)
    requires NestedWorld(cfg, env, r, s, u)
    ensures var res := ParseFileSpec(cfg, env, r, []);
            && res.errors == [] && res.delivered == Nested(cfg, env, r, s, u)
            && res.stats == Stats(3, 5, 3) && res.visited == [r, s, u]
  {
    var rChain := FirstLine(cfg, r, []);
    NestedChains(cfg, r, s, u);
    IncludeOfContentOnly(cfg, env, s, u, rChain);
    var sub := ParseFileSpec(cfg, env, s, rChain);
    IncludeThenContent(cfg, env, r, s, [], sub);
  }
}
