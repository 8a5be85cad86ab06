/**
  Properties of the preprocessor: what comment stripping and include
  detection promise, where every line handed to the line handler comes from,
  why include loops cannot make the walk run away, and how a file without
  include lines is flattened.
*/
module ParserLemmas {
  import opened Wrappers
  import opened GoStrings
  import opened FilePaths
  import opened Statistics
  import opened Parser

  // ---------------------------------------------------------------------
  // Comment stripping

  /** With a non-empty introducer the result is the trimmed text before its first occurrence. */
  lemma StripCommentCutsAtFirstIntro(cmtIntro: string, s: string)
    requires cmtIntro != ""
    ensures exists k :: && 0 <= k <= |s|
                        && (k == |s| || OccursAt(s, cmtIntro, k))
                        && (forall j :: 0 <= j < k ==> !OccursAt(s, cmtIntro, j))
                        && StripComment(cmtIntro, s) == TrimSpace(s[..k])
  {
    var before := SplitFirst(s, cmtIntro);
    var k := |before|;
    assert before == s[..k];
    assert StripComment(cmtIntro, s) == TrimSpace(s[..k]);
  }

  /** Stripping a stripped line changes nothing. */
  lemma StripCommentIdempotent(cmtIntro: string, s: string)
    ensures StripComment(cmtIntro, StripComment(cmtIntro, s)) == StripComment(cmtIntro, s)
  {
    var r := StripComment(cmtIntro, s);
    if cmtIntro != "" {
      var before := SplitFirst(r, cmtIntro);
      assert before == r;
    }
    TrimSpaceOfTrimmed(r);
  }

  /**
    The comment introducer first occurs at `k` (or not at all, when `k` is the
    length of `s`), and `s[..k]` is white space outside `[a, b)` and not at its
    ends: then the stripped line is `s[a..b]`.
  */
  lemma StripCommentAt(cmtIntro: string, s: string, k: nat, a: nat, b: nat)
    requires cmtIntro != ""
    requires a <= b <= k <= |s|
    requires k == |s| || OccursAt(s, cmtIntro, k)
    requires forall j :: 0 <= j < k ==> s[j] != cmtIntro[0]
    requires forall i :: 0 <= i < a ==> IsSpace(s[i])
    requires forall i :: b <= i < k ==> IsSpace(s[i])
    requires a < b ==> !IsSpace(s[a]) && !IsSpace(s[b - 1])
    ensures StripComment(cmtIntro, s) == s[a..b]
  {
    FirstIntroAt(cmtIntro, s, k);
    TrimmedPrefix(s, k, a, b);
  }

  lemma FirstIntroAt(cmtIntro: string, s: string, k: nat)
    requires cmtIntro != ""
    requires k <= |s|
    requires k == |s| || OccursAt(s, cmtIntro, k)
    requires forall j :: 0 <= j < k ==> s[j] != cmtIntro[0]
    ensures SplitFirst(s, cmtIntro) == s[..k]
  {
    forall j | 0 <= j < k ensures !OccursAt(s, cmtIntro, j) {
      if j + |cmtIntro| <= |s| {
        assert s[j..j + |cmtIntro|][0] == s[j];
      }
    }
    SplitFirstAt(s, cmtIntro, k);
  }

  lemma TrimmedPrefix(s: string, k: nat, a: nat, b: nat)
    requires a <= b <= k <= |s|
    requires forall i :: 0 <= i < a ==> IsSpace(s[i])
    requires forall i :: b <= i < k ==> IsSpace(s[i])
    requires a < b ==> !IsSpace(s[a]) && !IsSpace(s[b - 1])
    ensures TrimSpace(s[..k]) == s[a..b]
  {
    var t := s[..k];
    assert forall i :: 0 <= i < k ==> t[i] == s[i];
    TrimSpaceBetween(t, a, b);
    assert t[a..b] == s[a..b];
  }

  /** The comment and the space before it go. */
  lemma StripCommentDropsComment()
    ensures StripComment("//", "abc // test") == "abc"
  {
    StripCommentAt("//", "abc // test", 4, 0, 3);
  }

  /** A line that is all comment becomes blank. */
  lemma StripCommentAllComment()
    ensures StripComment("//", " // test") == ""
  {
    StripCommentAt("//", " // test", 1, 1, 1);
  }

  /** A line of spaces becomes blank. */
  lemma StripCommentBlank()
    ensures StripComment("//", "   ") == ""
  {
    StripCommentAt("//", "   ", 3, 3, 3);
  }

  /** A line without a comment is only trimmed. */
  lemma StripCommentTrims()
    ensures StripComment("//", "abc ") == "abc"
  {
    StripCommentAt("//", "abc ", 4, 0, 3);
  }

  /** Text that starts a comment only under another introducer stays. */
  lemma StripCommentOtherIntroKept()
    ensures StripComment("#", "abc // test") == "abc // test"
  {
    StripCommentAt("#", "abc // test", 11, 0, 11);
  }

  /** The same, at the start of the line: the text stays, trimmed. */
  lemma StripCommentOtherIntroTrimmed()
    ensures StripComment("#", " // test") == "// test"
  {
    StripCommentAt("#", " // test", 8, 1, 8);
  }

  /** With the introducer set to a hash, the text from the hash on goes. */
  lemma StripCommentHash()
    ensures StripComment("#", "abc # test") == "abc"
  {
    StripCommentAt("#", "abc # test", 4, 0, 3);
  }

  /** With the introducer set to a hash, a line that is all comment becomes blank. */
  lemma StripCommentHashAllComment()
    ensures StripComment("#", " # test") == ""
  {
    StripCommentAt("#", " # test", 1, 1, 1);
  }

  // ---------------------------------------------------------------------
  // Include detection

  /** A line that does not start with the keyword is not an include line. */
  lemma NotAnInclLine()
    ensures IsAnInclLine(DefaultInclKeyWord, "has no include directive") == ("", false)
    ensures IsAnInclLine("INCLUDE", "has no include directive") == ("", false)
  {
    assert "has no include directive"[0] != DefaultInclKeyWord[0];
    assert "has no include directive"[0] != "INCLUDE"[0];
  }

  /** The keyword followed only by white space is an include line with an empty name. */
  lemma InclLineWithoutName()
    ensures IsAnInclLine(DefaultInclKeyWord, "#include ") == ("", true)
  {
    assert "#include "[..8] == DefaultInclKeyWord;
    assert "#include "[8..] == " ";
    TrimSpaceBetween(" ", 1, 1);
  }

  /** The name of an include line is the rest of the line, trimmed. */
  lemma InclLineWithName()
    ensures IsAnInclLine(DefaultInclKeyWord, "#include xxx ") == ("xxx", true)
  {
    assert "#include xxx "[..8] == DefaultInclKeyWord;
    assert TrimPrefix("#include xxx ", DefaultInclKeyWord) == " xxx ";
    TrimSpaceBetween(" xxx ", 1, 4);
    assert " xxx "[1..4] == "xxx";
  }

  /** The same with the keyword "INCLUDE". */
  lemma OtherKeyWordWithoutName()
    ensures IsAnInclLine("INCLUDE", "INCLUDE ") == ("", true)
  {
    assert "INCLUDE "[..7] == "INCLUDE";
    assert "INCLUDE "[7..] == " ";
    TrimSpaceBetween(" ", 1, 1);
  }

  /** The same with the keyword "INCLUDE". */
  lemma OtherKeyWordWithName()
    ensures IsAnInclLine("INCLUDE", "INCLUDE xxx ") == ("xxx", true)
  {
    assert "INCLUDE xxx "[..7] == "INCLUDE";
    assert TrimPrefix("INCLUDE xxx ", "INCLUDE") == " xxx ";
    TrimSpaceBetween(" xxx ", 1, 4);
    assert " xxx "[1..4] == "xxx";
  }

  // ---------------------------------------------------------------------
  // Include path fixing

  /**
    A relative target made of plain elements is opened beside the including
    file `lead d1/…/dn/base`, whose directory part may be empty and may start
    with "/" or "./": the result is `d1/…/dn/target`, rooted exactly when the
    including name is. For "main" including "sub" that is "sub", and for
    "./testdata/a" including "b" it is "testdata/b". For a name such as
    "~/conf/main" the result is "~/conf/<target>", which is expanded again
    when it is opened.
  */
  lemma RelativeIncludeBesideIncluder(lead: string, dir: seq<string>, base: string, target: seq<string>)
    requires lead == "" || lead == "/" || lead == "./"
    requires Plain(dir) && IsElement(base)
    requires |target| >= 1 && Plain(target)
    ensures FixIncludeFileName(JoinElems(target), DirPrefix(lead, dir) + base) == PathOf(lead == "/", dir + target)
  {
    assert JoinElems(target)[..|target[0]|] == target[0];
    assert target[0][0] != '/' by { assert target[0][0] in target[0]; }
    DirOfPrefix(lead, dir, base);
    JoinDirOfPrefix(lead, dir, target);
  }

  // ---------------------------------------------------------------------
  // The include chain

  /** No name appears twice on the chain. */
  predicate NoRepeats(chain: seq<Loc>)
  {
    forall i, j :: 0 <= i < j < |chain| ==> chain[i].source != chain[j].source
  }

  /** Every name on the chain is in its name set. */
  lemma {:induction false} InNames(chain: seq<Loc>, i: nat)
    requires i < |chain|
    ensures chain[i].source in Names(chain)
    decreases |chain|
  {
    if i < |chain| - 1 {
      InNames(chain[..|chain| - 1], i);
    }
  }

  /** Extending the chain by a location whose file passed the loop check keeps its names distinct. */
  lemma ExtendNoRepeats(chain: seq<Loc>, loc: Loc)
    requires NoRepeats(chain)
    requires !HasLoop(chain, loc.source)
    ensures NoRepeats(chain + [loc])
  {
    forall i | 0 <= i < |chain| ensures chain[i].source != loc.source {
      InNames(chain, i);
    }
  }

  /** Removing one element of a set that holds it lowers its size by one. */
  lemma RemoveOne(a: set<string>, x: string)
    requires x in a
    ensures |a - {x}| == |a| - 1
  {
    assert a == (a - {x}) + {x};
  }

  /**
    The nesting of opened files never exceeds the number of openable files
    not already on the chain: an include loop is cut off before it can
    deepen the walk.
  */
  lemma {:induction false} FileDepth(cfg: Config, env: Env, filename: string, chain: seq<Loc>)
    ensures ParseFileSpec(cfg, env, filename, chain).depth <= |env.files.Keys - Names(chain)|
    decreases env.files.Keys - Names(chain), 1, 0
  {
    match env.expand(filename)
    case None =>
    case Some(fixed) =>
      if !HasLoop(chain, fixed) && fixed in env.files {
        LinesDepth(cfg, env, filename, fixed, chain, 0);
        RemoveOne(env.files.Keys - Names(chain), fixed);
      }
  }

  lemma {:induction false} LinesDepth(cfg: Config, env: Env, filename: string, fixed: string, chain: seq<Loc>, i: nat)
    requires fixed in env.files && !HasLoop(chain, fixed)
    requires i <= |env.files[fixed].lines|
    ensures ScanLines(cfg, env, filename, fixed, chain, i).depth <= |env.files.Keys - Names(chain) - {fixed}|
    decreases env.files.Keys - Names(chain), 0, |env.files[fixed].lines| - i, 2
  {
    if i < |env.files[fixed].lines| {
      StepDepth(cfg, env, filename, fixed, chain, i);
      LinesDepth(cfg, env, filename, fixed, chain, i + 1);
    }
  }

  lemma {:induction false} StepDepth(cfg: Config, env: Env, filename: string, fixed: string, chain: seq<Loc>, i: nat)
    requires fixed in env.files && !HasLoop(chain, fixed)
    requires i < |env.files[fixed].lines|
    ensures LineStep(cfg, env, filename, fixed, chain, i).depth <= |env.files.Keys - Names(chain) - {fixed}|
    decreases env.files.Keys - Names(chain), 0, |env.files[fixed].lines| - i, 1
  {
    var loc := Loc(fixed, i + 1, NoteStr(cfg.fileType, chain));
    var line := StripComment(cfg.cmtIntro, env.files[fixed].lines[i]);
    var (inclFileName, hasIncl) := IsAnInclLine(cfg.inclKeyWord, line);
    if line != "" && hasIncl && inclFileName != "" {
      NamesSnoc(chain, loc);
      assert env.files.Keys - Names(chain + [loc]) == env.files.Keys - Names(chain) - {fixed};
      FileDepth(cfg, env, FixIncludeFileName(inclFileName, filename), chain + [loc]);
    }
  }

  /** A whole parse never nests deeper than the number of files there are. */
  lemma ParseDepth(cfg: Config, env: Env, filename: string)
    ensures ParseFileSpec(cfg, env, filename, []).depth <= |env.files|
  {
    FileDepth(cfg, env, filename, []);
    assert env.files.Keys - Names([]) == env.files.Keys;
  }

  // ---------------------------------------------------------------------
  // Where handled lines come from

  /**
    `d` is a line of an openable file, stripped of its comment, neither blank
    nor an include line, located at its line number in that file, and it was
    read through a chain that extends `chain`, has no repeated name and does
    not hold the file itself.
  */
  predicate FromSource(cfg: Config, env: Env, chain: seq<Loc>, d: Delivery)
  {
    && d.loc.source in env.files
    && 1 <= d.loc.line <= |env.files[d.loc.source].lines|
    && d.text == StripComment(cfg.cmtIntro, env.files[d.loc.source].lines[d.loc.line - 1])
    && d.text != ""
    && !IsAnInclLine(cfg.inclKeyWord, d.text).1
    && d.loc.note.fileType == cfg.fileType
    && chain <= d.loc.note.chain
    && NoRepeats(d.loc.note.chain)
    && !HasLoop(d.loc.note.chain, d.loc.source)
  }

  /** Every handler call in `ds` comes from a source file. */
  predicate AllFromSource(cfg: Config, env: Env, chain: seq<Loc>, ds: seq<Delivery>)
  {
    forall k :: 0 <= k < |ds| ==> FromSource(cfg, env, chain, ds[k])
  }

  lemma AllFromSourceAppend(cfg: Config, env: Env, chain: seq<Loc>, a: seq<Delivery>, b: seq<Delivery>)
    requires AllFromSource(cfg, env, chain, a) && AllFromSource(cfg, env, chain, b)
    ensures AllFromSource(cfg, env, chain, a + b)
  {
    forall k | 0 <= k < |a + b| ensures FromSource(cfg, env, chain, (a + b)[k]) {
      if k < |a| {
        assert (a + b)[k] == a[k];
      } else {
        assert (a + b)[k] == b[k - |a|];
      }
    }
  }

  /** What came through a longer chain also came through the shorter one. */
  lemma AllFromSourceShorter(cfg: Config, env: Env, chain: seq<Loc>, loc: Loc, ds: seq<Delivery>)
    requires AllFromSource(cfg, env, chain + [loc], ds)
    ensures AllFromSource(cfg, env, chain, ds)
  {
    forall k | 0 <= k < |ds| ensures FromSource(cfg, env, chain, ds[k]) {
      var c := ds[k].loc.note.chain;
      assert chain + [loc] <= c;
      assert c[..|chain|] == (chain + [loc])[..|chain|] == chain;
    }
  }

  /** Every line the handler receives during the parse of `filename` comes from a source file. */
  lemma {:induction false} FileProvenance(cfg: Config, env: Env, filename: string, chain: seq<Loc>)
    requires NoRepeats(chain)
    ensures AllFromSource(cfg, env, chain, ParseFileSpec(cfg, env, filename, chain).delivered)
    decreases env.files.Keys - Names(chain), 1, 0
  {
    match env.expand(filename)
    case None =>
    case Some(fixed) =>
      if !HasLoop(chain, fixed) && fixed in env.files {
        LinesProvenance(cfg, env, filename, fixed, chain, 0);
        assert ParseFileSpec(cfg, env, filename, chain).delivered
            == ScanLines(cfg, env, filename, fixed, chain, 0).delivered;
      }
  }

  lemma {:induction false} LinesProvenance(cfg: Config, env: Env, filename: string, fixed: string, chain: seq<Loc>, i: nat)
    requires fixed in env.files && !HasLoop(chain, fixed)
    requires i <= |env.files[fixed].lines|
    requires NoRepeats(chain)
    ensures AllFromSource(cfg, env, chain, ScanLines(cfg, env, filename, fixed, chain, i).delivered)
    decreases env.files.Keys - Names(chain), 0, |env.files[fixed].lines| - i, 2
  {
    if i < |env.files[fixed].lines| {
      var step := LineStep(cfg, env, filename, fixed, chain, i);
      var rest := ScanLines(cfg, env, filename, fixed, chain, i + 1);
      StepProvenance(cfg, env, filename, fixed, chain, i);
      LinesProvenance(cfg, env, filename, fixed, chain, i + 1);
      AllFromSourceAppend(cfg, env, chain, step.delivered, rest.delivered);
      assert ScanLines(cfg, env, filename, fixed, chain, i).delivered == step.delivered + rest.delivered;
    }
  }

  lemma {:induction false} StepProvenance(cfg: Config, env: Env, filename: string, fixed: string, chain: seq<Loc>, i: nat)
    requires fixed in env.files && !HasLoop(chain, fixed)
    requires i < |env.files[fixed].lines|
    requires NoRepeats(chain)
    ensures AllFromSource(cfg, env, chain, LineStep(cfg, env, filename, fixed, chain, i).delivered)
    decreases env.files.Keys - Names(chain), 0, |env.files[fixed].lines| - i, 1
  {
    var step := LineStep(cfg, env, filename, fixed, chain, i);
    var loc := Loc(fixed, i + 1, NoteStr(cfg.fileType, chain));
    var line := StripComment(cfg.cmtIntro, env.files[fixed].lines[i]);
    var (inclFileName, hasIncl) := IsAnInclLine(cfg.inclKeyWord, line);
    if line == "" || (hasIncl && inclFileName == "") {
      assert step.delivered == [];
    } else if hasIncl {
      NamesSnoc(chain, loc);
      ExtendNoRepeats(chain, loc);
      var target := FixIncludeFileName(inclFileName, filename);
      FileProvenance(cfg, env, target, chain + [loc]);
      assert step.delivered == ParseFileSpec(cfg, env, target, chain + [loc]).delivered;
      AllFromSourceShorter(cfg, env, chain, loc, step.delivered);
    } else {
      assert step.delivered == [Delivery(line, loc)];
      assert FromSource(cfg, env, chain, Delivery(line, loc));
    }
  }

  /** The same for a whole parse, which starts from the empty chain. */
  lemma ParseProvenance(cfg: Config, env: Env, filename: string)
    ensures AllFromSource(cfg, env, [], ParseFileSpec(cfg, env, filename, []).delivered)
  {
    FileProvenance(cfg, env, filename, []);
  }

  // ---------------------------------------------------------------------
  // Errors

  /** The handler accepts every line, as the null parser does. */
  ghost predicate AcceptsAll(lp: LineParser)
  {
    forall line, loc :: lp(line, loc) == None
  }

  lemma NullParserAcceptsAll()
    ensures AcceptsAll(NullParser)
  {
  }

  /** None of `errs` is an error of the handler. */
  predicate NoHandlerErrors(errs: seq<Error>)
  {
    forall k :: 0 <= k < |errs| ==> !errs[k].HandlerFailed?
  }

  lemma NoHandlerErrorsAppend(a: seq<Error>, b: seq<Error>)
    requires NoHandlerErrors(a) && NoHandlerErrors(b)
    ensures NoHandlerErrors(a + b)
  {
    forall k | 0 <= k < |a + b| ensures !(a + b)[k].HandlerFailed? {
      if k < |a| {
        assert (a + b)[k] == a[k];
      } else {
        assert (a + b)[k] == b[k - |a|];
      }
    }
  }

  /** With a handler that accepts everything, every error comes from the parser itself. */
  lemma {:induction false} FileHandlerErrors(cfg: Config, env: Env, filename: string, chain: seq<Loc>)
    requires AcceptsAll(cfg.lineParser)
    ensures NoHandlerErrors(ParseFileSpec(cfg, env, filename, chain).errors)
    decreases env.files.Keys - Names(chain), 1, 0
  {
    match env.expand(filename)
    case None =>
    case Some(fixed) =>
      if !HasLoop(chain, fixed) && fixed in env.files {
        var scan := ScanLines(cfg, env, filename, fixed, chain, 0);
        var fault := if env.files[fixed].readFault then [ReadFailed(fixed)] else [];
        LinesHandlerErrors(cfg, env, filename, fixed, chain, 0);
        NoHandlerErrorsAppend(scan.errors, fault);
        assert ParseFileSpec(cfg, env, filename, chain).errors == scan.errors + fault;
      }
  }

  lemma {:induction false} LinesHandlerErrors(cfg: Config, env: Env, filename: string, fixed: string, chain: seq<Loc>, i: nat)
    requires fixed in env.files && !HasLoop(chain, fixed)
    requires i <= |env.files[fixed].lines|
    requires AcceptsAll(cfg.lineParser)
    ensures NoHandlerErrors(ScanLines(cfg, env, filename, fixed, chain, i).errors)
    decreases env.files.Keys - Names(chain), 0, |env.files[fixed].lines| - i, 2
  {
    if i < |env.files[fixed].lines| {
      var step := LineStep(cfg, env, filename, fixed, chain, i);
      var rest := ScanLines(cfg, env, filename, fixed, chain, i + 1);
      StepHandlerErrors(cfg, env, filename, fixed, chain, i);
      LinesHandlerErrors(cfg, env, filename, fixed, chain, i + 1);
      NoHandlerErrorsAppend(step.errors, rest.errors);
      assert ScanLines(cfg, env, filename, fixed, chain, i).errors == step.errors + rest.errors;
    }
  }

  lemma {:induction false} StepHandlerErrors(cfg: Config, env: Env, filename: string, fixed: string, chain: seq<Loc>, i: nat)
    requires fixed in env.files && !HasLoop(chain, fixed)
    requires i < |env.files[fixed].lines|
    requires AcceptsAll(cfg.lineParser)
    ensures NoHandlerErrors(LineStep(cfg, env, filename, fixed, chain, i).errors)
    decreases env.files.Keys - Names(chain), 0, |env.files[fixed].lines| - i, 1
  {
    var loc := Loc(fixed, i + 1, Note(cfg.fileType, chain));
    var line := StripComment(cfg.cmtIntro, env.files[fixed].lines[i]);
    var (inclFileName, hasIncl) := IsAnInclLine(cfg.inclKeyWord, line);
    if line == "" {
      StepBlank(cfg, env, filename, fixed, chain, i);
    } else if hasIncl {
      StepIncludeLine(cfg, env, filename, fixed, chain, i, line, inclFileName);
      if inclFileName != "" {
        assert loc == Loc(fixed, i + 1, NoteStr(cfg.fileType, chain));
        NamesSnoc(chain, loc);
        var target := FixIncludeFileName(inclFileName, filename);
        FileHandlerErrors(cfg, env, target, chain + [loc]);
        assert IncludeStep(cfg, env, filename, fixed, chain, i, inclFileName).errors
            == ParseFileSpec(cfg, env, target, chain + [loc]).errors;
      }
    } else {
      StepContent(cfg, env, filename, fixed, chain, i, line);
      assert cfg.lineParser(line, loc) == None;
    }
  }

  // ---------------------------------------------------------------------
  // Files without include lines

  /** The texts of a sequence of handler calls. */
  function Texts(ds: seq<Delivery>): (r: seq<string>)
    ensures |r| == |ds|
    ensures forall k :: 0 <= k < |ds| ==> r[k] == ds[k].text
  {
    if ds == [] then [] else [ds[0].text] + Texts(ds[1..])
  }

  /** The lines that survive comment stripping and blank-line removal, in order. */
  function Kept(cmtIntro: string, lines: seq<string>): (r: seq<string>)
    ensures |r| <= |lines|
    ensures forall k :: 0 <= k < |r| ==> r[k] != ""
  {
    if lines == [] then []
    else
      var line := StripComment(cmtIntro, lines[0]);
      (if line == "" then [] else [line]) + Kept(cmtIntro, lines[1..])
  }

  /**
    With the include keyword switched off, scanning a file from line `i` hands
    every non-blank stripped line to the handler in file order, counts every
    line as read and opens nothing.
  */
  lemma {:induction false} ScanWithoutIncludes(cfg: Config, env: Env, filename: string, fixed: string, chain: seq<Loc>, i: nat)
    requires cfg.inclKeyWord == ""
    requires fixed in env.files && !HasLoop(chain, fixed)
    requires i <= |env.files[fixed].lines|
    ensures var r := ScanLines(cfg, env, filename, fixed, chain, i);
            var kept := Kept(cfg.cmtIntro, env.files[fixed].lines[i..]);
            && Texts(r.delivered) == kept
            && r.stats == Stats(0, |env.files[fixed].lines| - i, |kept|)
            && r.depth == 0
    decreases |env.files[fixed].lines| - i
  {
    var lines := env.files[fixed].lines;
    if i < |lines| {
      ScanWithoutIncludes(cfg, env, filename, fixed, chain, i + 1);
      StepWithoutIncludes(cfg, env, filename, fixed, chain, i);
      KeptFrom(cfg.cmtIntro, lines, i);
      var step := LineStep(cfg, env, filename, fixed, chain, i);
      var rest := ScanLines(cfg, env, filename, fixed, chain, i + 1);
      TextsAppend(step.delivered, rest.delivered);
    }
  }

  /** With the include keyword switched off, one line is either dropped or handed to the handler as stripped. */
  lemma StepWithoutIncludes(cfg: Config, env: Env, filename: string, fixed: string, chain: seq<Loc>, i: nat)
    requires cfg.inclKeyWord == ""
    requires fixed in env.files && !HasLoop(chain, fixed)
    requires i < |env.files[fixed].lines|
    ensures var step := LineStep(cfg, env, filename, fixed, chain, i);
            var line := StripComment(cfg.cmtIntro, env.files[fixed].lines[i]);
            && Texts(step.delivered) == (if line == "" then [] else [line])
            && step.stats == Stats(0, 1, if line == "" then 0 else 1)
            && step.depth == 0
  {
  }

  lemma KeptFrom(cmtIntro: string, lines: seq<string>, i: nat)
    requires i < |lines|
    ensures var line := StripComment(cmtIntro, lines[i]);
            Kept(cmtIntro, lines[i..]) == (if line == "" then [] else [line]) + Kept(cmtIntro, lines[i + 1..])
  {
    assert lines[i..][1..] == lines[i + 1..];
  }

  lemma TextsAppend(a: seq<Delivery>, b: seq<Delivery>)
    ensures Texts(a + b) == Texts(a) + Texts(b)
  {
  }

  /** A parse with the include keyword switched off flattens the one file it opens. */
  lemma ParseWithoutIncludes(cfg: Config, env: Env, filename: string)
    requires cfg.inclKeyWord == ""
    requires Opens(env, filename, [])
    ensures var r := ParseFileSpec(cfg, env, filename, []);
            var lines := env.files[env.expand(filename).value].lines;
            && Texts(r.delivered) == Kept(cfg.cmtIntro, lines)
            && r.stats == Stats(1, |lines|, |Kept(cfg.cmtIntro, lines)|)
  {
    var fixed := env.expand(filename).value;
    ScanWithoutIncludes(cfg, env, filename, fixed, [], 0);
    assert env.files[fixed].lines[0..] == env.files[fixed].lines;
  }
}
