/**
  The include-following line preprocessor.

  A file parser (`FP`) reads a file line by line. Each line loses its comment
  and its surrounding white space, and blank lines are dropped. A line that
  starts with the include keyword makes the parser read the named file at
  that point, and every other line goes to the caller's line handler. Errors
  from every level are gathered into one list and never stop the scan. The
  chain of include locations that led to the current file is checked before
  every open, which rules out include loops.

  The file system is a map from path to the lines of the file (an absent path
  cannot be opened). Home-directory expansion and path cleaning of the name
  handed to the parser are an oracle that may fail.
*/
module Parser {
  import opened Wrappers
  import opened GoStrings
  import opened FilePaths
  import opened Statistics

  /** The default keyword that introduces the name of a file to read in its place. */
  const DefaultInclKeyWord: string := "#include"
  /** The default comment introducer: everything from it to the end of the line is ignored. */
  const DefaultCommentIntro: string := "//"

  /** The diagnostic note of a location: the file category and the include chain. */
  datatype Note = Note(fileType: string, chain: seq<Loc>)

  /** A position in a file: its expanded name, the line number (from 1) and the note. */
  datatype Loc = Loc(source: string, line: nat, note: Note)

  /** The caller's line handler: `None` when it accepts the line, else its error message. */
  type LineParser = (string, Loc) -> Option<string>

  /** The handler that discards its input and always succeeds. */
  function NullParser(line: string, loc: Loc): Option<string>
  {
    None
  }

  /** One call of the line handler: the processed text and where it came from. */
  datatype Delivery = Delivery(text: string, loc: Loc)

  /** The errors a parse can report, each tagged with where it arose. */
  datatype Error =
    | ExpandFailed(note: Note, filename: string)
    | LoopFound(filename: string, chain: seq<Loc>)
    | OpenFailed(filename: string)
    | MissingInclName(loc: Loc, content: string)
    | HandlerFailed(message: string)
    | ReadFailed(filename: string)

  /** An openable file: the lines the scanner yields, and whether it ends with a read fault. */
  datatype File = File(lines: seq<string>, readFault: bool)

  /**
    The world a parse runs in: the files that can be opened, and the expansion
    of a raw file name (tilde expansion and cleaning), which may fail.
  */
  datatype Env = Env(files: map<string, File>, expand: string -> Option<string>)

  /** The configuration part of a file parser, as a value. */
  datatype Config = Config(fileType: string, lineParser: LineParser, cmtIntro: string, inclKeyWord: string)

  /**
    What (part of) a parse did: the errors in the order they were reported,
    the handler calls in the order they were made, the counters it added, the
    deepest nesting of opened files it reached, and the expanded names of the
    files it opened, in the order they were opened.
  */
  datatype Run = Run(errors: seq<Error>, delivered: seq<Delivery>, stats: Stats, depth: nat, visited: seq<string>)
  {
    /** This stretch of work followed by `next`. */
    function Then(next: Run): Run
    {
      Run(errors + next.errors, delivered + next.delivered, stats.Plus(next.stats),
          if depth < next.depth then next.depth else depth, visited + next.visited)
    }
  }

  /** The number of lines in the files `names`, counting a name that cannot be opened as empty. */
  function LinesOf(env: Env, names: seq<string>): nat
  {
    if names == [] then 0
    else (if names[0] in env.files then |env.files[names[0]].lines| else 0) + LinesOf(env, names[1..])
  }

  lemma {:induction false} LinesOfAppend(env: Env, a: seq<string>, b: seq<string>)
    ensures LinesOf(env, a + b) == LinesOf(env, a) + LinesOf(env, b)
  {
    if a != [] {
      assert (a + b)[1..] == a[1..] + b;
      LinesOfAppend(env, a[1..], b);
    } else {
      assert a + b == b;
    }
  }

  /** Every name in `names` is a file that can be opened. */
  predicate AllOpenable(env: Env, names: seq<string>)
  {
    forall k :: 0 <= k < |names| ==> names[k] in env.files
  }

  /**
    The text before the first comment introducer, with surrounding white space
    removed. With an empty introducer nothing is a comment and the line is only
    trimmed.
  */
  function StripComment(cmtIntro: string, s: string): (r: string)
    ensures Trimmed(r)
    ensures |r| <= |s|
    ensures cmtIntro == "" ==> r == TrimSpace(s)
    ensures cmtIntro != "" ==> !Contains(r, cmtIntro)
  {
    if cmtIntro == "" then TrimSpace(s)
    else
      var before := SplitFirst(s, cmtIntro);
      var r := TrimSpace(before);
      SliceKeepsAbsence(before, cmtIntro, LeadingSpace(before), LeadingSpace(before) + |r|);
      r
  }

  /**
    Whether `line` is an include line, and the name of the file it includes.
    It is one exactly when the keyword is non-empty and starts the line; the
    name is then the rest of the line, trimmed, and otherwise it is empty.
  */
  function IsAnInclLine(inclKeyWord: string, line: string): (r: (string, bool))
    ensures r.1 <==> inclKeyWord != "" && HasPrefix(line, inclKeyWord)
    ensures r.1 ==> inclKeyWord + line[|inclKeyWord|..] == line && r.0 == TrimSpace(line[|inclKeyWord|..])
    ensures !r.1 ==> r.0 == ""
    ensures Trimmed(r.0)
  {
    var hasIncl := inclKeyWord != "" && HasPrefix(line, inclKeyWord);
    if hasIncl then (TrimSpace(TrimPrefix(line, inclKeyWord)), true) else ("", false)
  }

  /**
    The name under which an include target is opened: an absolute target as it
    is, a relative one in the directory of the including file. The result is
    absolute exactly when the target or the including file's name is.
  */
  function FixIncludeFileName(inclFileName: string, currentFileName: string): (r: string)
    ensures IsAbs(inclFileName) ==> r == inclFileName
    ensures IsAbs(r) <==> IsAbs(inclFileName) || IsAbs(currentFileName)
    ensures r != ""
  {
    if IsAbs(inclFileName) then inclFileName
    else Join(Dir(currentFileName), inclFileName)
  }

  /** The note attached to the locations of a file opened through `chain`. */
  function NoteStr(fileType: string, chain: seq<Loc>): Note
  {
    Note(fileType, chain)
  }

  /** The expanded names of the files on an include chain. */
  function Names(chain: seq<Loc>): set<string>
  {
    if chain == [] then {} else Names(chain[..|chain| - 1]) + {chain[|chain| - 1].source}
  }

  /** Opening `name` would close a loop: it is already being read further up the chain. */
  predicate HasLoop(chain: seq<Loc>, name: string)
  {
    name in Names(chain)
  }

  lemma NamesSnoc(chain: seq<Loc>, loc: Loc)
    ensures Names(chain + [loc]) == Names(chain) + {loc.source}
  {
    assert (chain + [loc])[..|chain|] == chain;
  }

  /** The parse of `filename` reaches the point where the file is opened. */
  predicate Opens(env: Env, filename: string, chain: seq<Loc>)
  {
    && env.expand(filename).Some?
    && !HasLoop(chain, env.expand(filename).value)
    && env.expand(filename).value in env.files
  }

  /**
    What parsing `filename` under the include chain `chain` does. The name is
    expanded first; a name that cannot be expanded, that is already on the
    chain, or that cannot be opened gives exactly one error and nothing else.
    Otherwise the file counts as visited and its lines are scanned.
  */
  function ParseFileSpec(cfg: Config, env: Env, filename: string, chain: seq<Loc>): (r: Run)
    ensures r.stats.linesParsed == |r.delivered| <= r.stats.linesRead
    ensures r.stats.filesVisited == |r.visited| && AllOpenable(env, r.visited)
    ensures r.stats.linesRead == LinesOf(env, r.visited)
    ensures r.stats.filesVisited == 0 <==> !Opens(env, filename, chain)
    ensures !Opens(env, filename, chain) ==> |r.errors| == 1 && r.delivered == [] && r.stats == Zero
    ensures Opens(env, filename, chain) ==> r.visited[0] == env.expand(filename).value
    decreases env.files.Keys - Names(chain), 1, 0
  {
    match env.expand(filename)
    case None => Run([ExpandFailed(NoteStr(cfg.fileType, chain), filename)], [], Zero, 0, [])
    case Some(fixed) =>
      if HasLoop(chain, fixed) then Run([LoopFound(fixed, chain)], [], Zero, 0, [])
      else if fixed !in env.files then Run([OpenFailed(fixed)], [], Zero, 0, [])
      else
        var scan := ScanLines(cfg, env, filename, fixed, chain, 0);
        var fault := if env.files[fixed].readFault then [ReadFailed(fixed)] else [];
        Run(scan.errors + fault, scan.delivered, scan.stats.(filesVisited := scan.stats.filesVisited + 1),
            scan.depth + 1, [fixed] + scan.visited)
  }

  /**
    What scanning the lines of the open file `fixed` from index `i` on does:
    each line in turn, in file order.
  */
  function ScanLines(cfg: Config, env: Env, filename: string, fixed: string, chain: seq<Loc>, i: nat): (r: Run)
    requires fixed in env.files && !HasLoop(chain, fixed)
    requires i <= |env.files[fixed].lines|
    ensures r.stats.linesParsed == |r.delivered| <= r.stats.linesRead
    ensures r.stats.filesVisited == |r.visited| && AllOpenable(env, r.visited)
    ensures r.stats.linesRead == |env.files[fixed].lines| - i + LinesOf(env, r.visited)
    decreases env.files.Keys - Names(chain), 0, |env.files[fixed].lines| - i, 2
  {
    if i == |env.files[fixed].lines| then Run([], [], Zero, 0, [])
    else if i + 1 == |env.files[fixed].lines| then LineStep(cfg, env, filename, fixed, chain, i)
    else
      var step := LineStep(cfg, env, filename, fixed, chain, i);
      var rest := ScanLines(cfg, env, filename, fixed, chain, i + 1);
      LinesOfAppend(env, step.visited, rest.visited);
      step.Then(rest)
  }

  /**
    What the line at index `i` of the open file `fixed` does. It counts as
    read. If it is blank once its comment is gone it is dropped; an include
    line does what `IncludeStep` says; every other line counts as parsed and
    goes to the handler.
  */
  function LineStep(cfg: Config, env: Env, filename: string, fixed: string, chain: seq<Loc>, i: nat): (r: Run)
    requires fixed in env.files && !HasLoop(chain, fixed)
    requires i < |env.files[fixed].lines|
    ensures r.stats.linesParsed == |r.delivered| < r.stats.linesRead + 1
    ensures r.stats.filesVisited == |r.visited| && AllOpenable(env, r.visited)
    ensures r.stats.linesRead == 1 + LinesOf(env, r.visited)
    decreases env.files.Keys - Names(chain), 0, |env.files[fixed].lines| - i, 1
  {
    var line := StripComment(cfg.cmtIntro, env.files[fixed].lines[i]);
    if line == "" then Run([], [], Stats(0, 1, 0), 0, [])
    else
      var (inclFileName, hasIncl) := IsAnInclLine(cfg.inclKeyWord, line);
      if hasIncl then IncludeStep(cfg, env, filename, fixed, chain, i, inclFileName)
      else
        var loc := Loc(fixed, i + 1, NoteStr(cfg.fileType, chain));
        var outcome := cfg.lineParser(line, loc);
        Run(if outcome.Some? then [HandlerFailed(outcome.value)] else [],
            [Delivery(line, loc)], Stats(0, 1, 1), 0, [])
  }

  /**
    What the include line at index `i` of the open file `fixed`, naming
    `inclFileName`, does. It counts as read. Without a name it is one error;
    with one, the named file is parsed in place, relative to `filename`, with
    the chain extended by the line's location.
  */
  function IncludeStep(cfg: Config, env: Env, filename: string, fixed: string, chain: seq<Loc>, i: nat,
                       inclFileName: string): (r: Run)
    requires fixed in env.files && !HasLoop(chain, fixed)
    requires i < |env.files[fixed].lines|
    ensures r.stats.linesParsed == |r.delivered| < r.stats.linesRead + 1
    ensures r.stats.filesVisited == |r.visited| && AllOpenable(env, r.visited)
    ensures r.stats.linesRead == 1 + LinesOf(env, r.visited)
    decreases env.files.Keys - Names(chain), 0, |env.files[fixed].lines| - i, 0
  {
    var loc := Loc(fixed, i + 1, NoteStr(cfg.fileType, chain));
    if inclFileName == "" then Run([MissingInclName(loc, env.files[fixed].lines[i])], [], Stats(0, 1, 0), 0, [])
    else
      NamesSnoc(chain, loc);
      var sub := ParseFileSpec(cfg, env, FixIncludeFileName(inclFileName, filename), chain + [loc]);
      Run(sub.errors, sub.delivered, sub.stats.(linesRead := sub.stats.linesRead + 1), sub.depth, sub.visited)
  }

  /** How far a scan has got: what is already done plus what `rest` will do is all of `whole`. */
  ghost predicate Progress(errs: seq<Error>, handled: seq<Delivery>, stats: Stats, rest: Run,
                           whole: Run, handled0: seq<Delivery>, stats0: Stats)
  {
    && errs + rest.errors == whole.errors
    && handled + rest.delivered == handled0 + whole.delivered
    && stats.Plus(rest.stats) == stats0.Plus(whole.stats)
  }

  /** A line that is blank once its comment is gone is read and dropped. */
  lemma StepBlank(cfg: Config, env: Env, filename: string, fixed: string, chain: seq<Loc>, i: nat)
    requires fixed in env.files && !HasLoop(chain, fixed)
    requires i < |env.files[fixed].lines|
    requires StripComment(cfg.cmtIntro, env.files[fixed].lines[i]) == ""
    ensures LineStep(cfg, env, filename, fixed, chain, i) == Run([], [], Stats(0, 1, 0), 0, [])
  {
  }

  /** An include line is handled as `IncludeStep` says. */
  lemma StepIncludeLine(cfg: Config, env: Env, filename: string, fixed: string, chain: seq<Loc>, i: nat,
                        line: string, inclFileName: string)
    requires fixed in env.files && !HasLoop(chain, fixed)
    requires i < |env.files[fixed].lines|
    requires line == StripComment(cfg.cmtIntro, env.files[fixed].lines[i]) && line != ""
    requires IsAnInclLine(cfg.inclKeyWord, line) == (inclFileName, true)
    ensures LineStep(cfg, env, filename, fixed, chain, i) == IncludeStep(cfg, env, filename, fixed, chain, i, inclFileName)
  {
  }

  /** An include line without a name is read and is one error. */
  lemma StepMissingName(cfg: Config, env: Env, filename: string, fixed: string, chain: seq<Loc>, i: nat)
    requires fixed in env.files && !HasLoop(chain, fixed)
    requires i < |env.files[fixed].lines|
    requires var line := StripComment(cfg.cmtIntro, env.files[fixed].lines[i]);
             line != "" && IsAnInclLine(cfg.inclKeyWord, line) == ("", true)
    ensures LineStep(cfg, env, filename, fixed, chain, i)
              == Run([MissingInclName(Loc(fixed, i + 1, Note(cfg.fileType, chain)), env.files[fixed].lines[i])],
                     [], Stats(0, 1, 0), 0, [])
  {
    StepIncludeLine(cfg, env, filename, fixed, chain, i, StripComment(cfg.cmtIntro, env.files[fixed].lines[i]), "");
  }

  /** An include line with a name is read and parses the included file in place. */
  lemma StepInclude(cfg: Config, env: Env, filename: string, fixed: string, chain: seq<Loc>, i: nat,
                    line: string, inclFileName: string, target: string)
    requires fixed in env.files && !HasLoop(chain, fixed)
    requires i < |env.files[fixed].lines|
    requires line == StripComment(cfg.cmtIntro, env.files[fixed].lines[i]) && line != ""
    requires IsAnInclLine(cfg.inclKeyWord, line) == (inclFileName, true) && inclFileName != ""
    requires FixIncludeFileName(inclFileName, filename) == target
    ensures var sub := ParseFileSpec(cfg, env, target, chain + [Loc(fixed, i + 1, Note(cfg.fileType, chain))]);
            LineStep(cfg, env, filename, fixed, chain, i)
              == Run(sub.errors, sub.delivered, sub.stats.(linesRead := sub.stats.linesRead + 1), sub.depth, sub.visited)
  {
    StepIncludeLine(cfg, env, filename, fixed, chain, i, line, inclFileName);
    assert Loc(fixed, i + 1, NoteStr(cfg.fileType, chain)) == Loc(fixed, i + 1, Note(cfg.fileType, chain));
  }

  /** Any other line is read, parsed and handed to the handler, whose error is kept. */
  lemma StepContent(cfg: Config, env: Env, filename: string, fixed: string, chain: seq<Loc>, i: nat, line: string)
    requires fixed in env.files && !HasLoop(chain, fixed)
    requires i < |env.files[fixed].lines|
    requires line == StripComment(cfg.cmtIntro, env.files[fixed].lines[i])
    requires line != "" && !IsAnInclLine(cfg.inclKeyWord, line).1
    ensures var loc := Loc(fixed, i + 1, Note(cfg.fileType, chain));
            var outcome := cfg.lineParser(line, loc);
            LineStep(cfg, env, filename, fixed, chain, i)
              == Run(if outcome.Some? then [HandlerFailed(outcome.value)] else [], [Delivery(line, loc)], Stats(0, 1, 1), 0, [])
  {
  }

  /** Nothing done after `r` adds nothing to it. */
  lemma ThenNothing(r: Run)
    ensures r.Then(Run([], [], Zero, 0, [])) == r
  {
    assert r.errors + [] == r.errors && r.delivered + [] == r.delivered && r.visited + [] == r.visited;
    PlusZero(r.stats);
  }

  /** Scanning from a line is that line followed by the scan of the lines after it, the last line included. */
  lemma ScanStep(cfg: Config, env: Env, filename: string, fixed: string, chain: seq<Loc>, i: nat)
    requires fixed in env.files && !HasLoop(chain, fixed)
    requires i < |env.files[fixed].lines|
    ensures ScanLines(cfg, env, filename, fixed, chain, i)
              == LineStep(cfg, env, filename, fixed, chain, i).Then(ScanLines(cfg, env, filename, fixed, chain, i + 1))
  {
    var step := LineStep(cfg, env, filename, fixed, chain, i);
    if i + 1 == |env.files[fixed].lines| {
      assert ScanLines(cfg, env, filename, fixed, chain, i) == step;
      assert ScanLines(cfg, env, filename, fixed, chain, i + 1) == Run([], [], Zero, 0, []);
      ThenNothing(step);
    }
  }

  /** Doing `step` moves the scan forward past it. */
  lemma Advance(errs: seq<Error>, handled: seq<Delivery>, stats: Stats, step: Run, rest: Run,
                whole: Run, handled0: seq<Delivery>, stats0: Stats)
    requires Progress(errs, handled, stats, step.Then(rest), whole, handled0, stats0)
    ensures Progress(errs + step.errors, handled + step.delivered, stats.Plus(step.stats), rest, whole, handled0, stats0)
  {
    assert errs + (step.errors + rest.errors) == errs + step.errors + rest.errors;
    assert handled + (step.delivered + rest.delivered) == handled + step.delivered + rest.delivered;
    PlusAssoc(stats, step.stats, rest.stats);
  }

  /** Scanning the line at index `i` moves the scan of the file forward past it. */
  lemma ScanAdvance(cfg: Config, env: Env, filename: string, fixed: string, chain: seq<Loc>, i: nat,
                    errs: seq<Error>, handled: seq<Delivery>, stats: Stats,
                    lineErrs: seq<Error>, handled1: seq<Delivery>, stats1: Stats,
                    whole: Run, handled0: seq<Delivery>, stats0: Stats)
    requires fixed in env.files && !HasLoop(chain, fixed)
    requires i < |env.files[fixed].lines|
    requires Progress(errs, handled, stats, ScanLines(cfg, env, filename, fixed, chain, i), whole, handled0, stats0)
    requires var step := LineStep(cfg, env, filename, fixed, chain, i);
             lineErrs == step.errors && stats1 == stats.Plus(step.stats) && handled1 == handled + step.delivered
    ensures Progress(errs + lineErrs, handled1, stats1, ScanLines(cfg, env, filename, fixed, chain, i + 1),
                     whole, handled0, stats0)
  {
    ScanStep(cfg, env, filename, fixed, chain, i);
    Advance(errs, handled, stats, LineStep(cfg, env, filename, fixed, chain, i),
            ScanLines(cfg, env, filename, fixed, chain, i + 1), whole, handled0, stats0);
  }

  /** A file parser: its configuration, the counters of the last parse, and the handler calls made so far. */
  class FP {
    var fileType: string
    const lineParser: LineParser
    var cmtIntro: string
    var inclKeyWord: string
    var stats: Stats
    /** Every call made to the line handler, in order (the handler's view of the parser). */
    var handled: seq<Delivery>

    /** The configuration as a value. */
    function Cfg(): Config
      reads this`fileType, this`cmtIntro, this`inclKeyWord
    {
      Config(fileType, lineParser, cmtIntro, inclKeyWord)
    }

    /** A parser with the default comment introducer and include keyword. */
    constructor New(desc: string, lp: LineParser)
      ensures fileType == desc && lineParser == lp
      ensures cmtIntro == DefaultCommentIntro && inclKeyWord == DefaultInclKeyWord
      ensures stats == Zero && handled == []
    {
      fileType := desc;
      lineParser := lp;
      cmtIntro := DefaultCommentIntro;
      inclKeyWord := DefaultInclKeyWord;
      stats := Zero;
      handled := [];
    }

    /** Changes the comment introducer; the empty string turns comments off. */
    method SetCommentIntro(intro: string)
      modifies this`cmtIntro
      ensures cmtIntro == intro
    {
      cmtIntro := intro;
    }

    /** Changes the include keyword; the empty string turns includes off. */
    method SetInclKeyWord(keyword: string)
      modifies this`inclKeyWord
      ensures inclKeyWord == keyword
    {
      inclKeyWord := keyword;
    }

    /**
      Parses `filename` and everything it includes. The counters start again
      from zero, so afterwards they describe this parse alone.
    */
    method Parse(filename: string, env: Env) returns (errs: seq<Error>)
      modifies this`stats, this`handled
      ensures var r := ParseFileSpec(Cfg(), env, filename, []);
              errs == r.errors && stats == r.stats && handled == old(handled) + r.delivered
    {
      var cfg := Cfg();
      stats := Zero;
      errs := ParseFile(cfg, filename, [], env);
      assert Cfg() == cfg;
      PlusZero(ParseFileSpec(cfg, env, filename, []).stats);
    }

    /**
      Parses one file under the include chain `chain` with the configuration
      `cfg`, recursing into the files it includes; the counters grow by what
      the parse does.
    */
    method ParseFile(cfg: Config, filename: string, chain: seq<Loc>, env: Env) returns (errs: seq<Error>)
      modifies this`stats, this`handled
      ensures var r := ParseFileSpec(cfg, env, filename, chain);
              errs == r.errors && stats == old(stats).Plus(r.stats) && handled == old(handled) + r.delivered
      decreases env.files.Keys - Names(chain), 3
    {
      errs := [];
      var expanded := env.expand(filename);
      if expanded.None? {
        errs := [ExpandFailed(NoteStr(cfg.fileType, chain), filename)];
        PlusZero(stats);
        return;
      }
      var fixed := expanded.value;
      if HasLoop(chain, fixed) {
        errs := [LoopFound(fixed, chain)];
        PlusZero(stats);
        return;
      }
      if fixed !in env.files {
        errs := [OpenFailed(fixed)];
        PlusZero(stats);
        return;
      }
      stats := stats.(filesVisited := stats.filesVisited + 1);
      var scanErrs := ScanFile(cfg, filename, fixed, chain, env);
      errs := scanErrs;
      if env.files[fixed].readFault {
        errs := errs + [ReadFailed(fixed)];
      }
    }

    /**
      Reads the lines of the open file `fixed` one by one, the scanning loop of
      `ParseFile`; the counters grow by what the lines do.
    */
    method ScanFile(cfg: Config, filename: string, fixed: string, chain: seq<Loc>, env: Env) returns (errs: seq<Error>)
      requires fixed in env.files && !HasLoop(chain, fixed)
      modifies this`stats, this`handled
      ensures var r := ScanLines(cfg, env, filename, fixed, chain, 0);
              errs == r.errors && stats == old(stats).Plus(r.stats) && handled == old(handled) + r.delivered
      decreases env.files.Keys - Names(chain), 2
    {
      errs := [];
      var lines := env.files[fixed].lines;
      ghost var whole := ScanLines(cfg, env, filename, fixed, chain, 0);
      ghost var stats0 := stats;
      PlusZero(whole.stats);
      var n := 0;
      while n < |lines|
        invariant n <= |lines|
        invariant Progress(errs, handled, stats, ScanLines(cfg, env, filename, fixed, chain, n),
                           whole, old(handled), stats0)
      {
        ghost var (errs1, handled1, stats1) := (errs, handled, stats);
        var lineErrs := ScanLine(cfg, filename, fixed, chain, env, n);
        ScanAdvance(cfg, env, filename, fixed, chain, n, errs1, handled1, stats1,
                    lineErrs, handled, stats, whole, old(handled), stats0);
        errs := errs + lineErrs;
        n := n + 1;
      }
      PlusZero(stats);
    }

    /**
      Handles the line at index `n` of the open file `fixed`, one turn of the
      scanning loop of `ParseFile`; the counters grow by what the line does.
    */
    method ScanLine(cfg: Config, filename: string, fixed: string, chain: seq<Loc>, env: Env, n: nat)
      returns (errs: seq<Error>)
      requires fixed in env.files && !HasLoop(chain, fixed)
      requires n < |env.files[fixed].lines|
      modifies this`stats, this`handled
      ensures var r := LineStep(cfg, env, filename, fixed, chain, n);
              errs == r.errors && stats == old(stats).Plus(r.stats) && handled == old(handled) + r.delivered
      decreases env.files.Keys - Names(chain), 1
    {
      errs := [];
      var originalLine := env.files[fixed].lines[n];
      var loc := Loc(fixed, n + 1, NoteStr(cfg.fileType, chain));
      var line := StripComment(cfg.cmtIntro, originalLine);
      if line == "" {
        stats := stats.(linesRead := stats.linesRead + 1);
        StepBlank(cfg, env, filename, fixed, chain, n);
        return;
      }
      var (inclFileName, hasIncl) := IsAnInclLine(cfg.inclKeyWord, line);
      if hasIncl {
        errs := ScanInclude(cfg, filename, fixed, chain, env, n, inclFileName);
        StepIncludeLine(cfg, env, filename, fixed, chain, n, line, inclFileName);
        return;
      }
      StepContent(cfg, env, filename, fixed, chain, n, line);
      stats := stats.(linesRead := stats.linesRead + 1, linesParsed := stats.linesParsed + 1);
      handled := handled + [Delivery(line, loc)];
      var outcome := cfg.lineParser(line, loc);
      if outcome.Some? {
        errs := [HandlerFailed(outcome.value)];
      }
    }

    /**
      The include branch of `ScanLine`: the line at index `n` of `fixed` is an
      include line naming `inclFileName`.
    */
    method ScanInclude(cfg: Config, filename: string, fixed: string, chain: seq<Loc>, env: Env, n: nat,
                       inclFileName: string) returns (errs: seq<Error>)
      requires fixed in env.files && !HasLoop(chain, fixed)
      requires n < |env.files[fixed].lines|
      modifies this`stats, this`handled
      ensures var r := IncludeStep(cfg, env, filename, fixed, chain, n, inclFileName);
              errs == r.errors && stats == old(stats).Plus(r.stats) && handled == old(handled) + r.delivered
      decreases env.files.Keys - Names(chain), 0
    {
      stats := stats.(linesRead := stats.linesRead + 1);
      var loc := Loc(fixed, n + 1, NoteStr(cfg.fileType, chain));
      if inclFileName == "" {
        errs := [MissingInclName(loc, env.files[fixed].lines[n])];
        return;
      }
      NamesSnoc(chain, loc);
      var target := FixIncludeFileName(inclFileName, filename);
      errs := ParseFile(cfg, target, chain + [loc], env);
      ReadThenPlus(old(stats), ParseFileSpec(cfg, env, target, chain + [loc]).stats);
    }
  }
}
