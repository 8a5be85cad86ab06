/**
  The starting file of the package's worked examples
  (fileparse/parser_example_test.go). Its lines are known from the example
  that switches both comments and includes off, which prints every
  non-blank line as it is. Read with the parser's default comment
  introducer "//", the first of them, "# This …", is content rather than a
  comment, and "@include …" is not an include line under the default
  keyword "#include"; the printed outputs of the other two examples leave
  the first line out and follow the "@include" lines, which is what a "#"
  introducer and an "@include" keyword give.
*/
module ExampleFiles {
  import opened GoStrings
  import opened Statistics
  import opened Parser
  import opened ParserLemmas
  import opened ParserScenarios

  /** The non-blank lines of the starting file, in order. */
  const Opening: string := "# This is the first file read by the example"
  const First: string := "first content line"
  const Second: string := "second content line"
  const Include1: string := ExampleInclKeyWord + " " + "includeFile1"
  const Include2: string := ExampleInclKeyWord + " " + "includeFile2"
  const Last: string := "last line"

  const StartingFile: seq<string> := [Opening, First, Second, Include1, Include2, Last]

  /** What the example that switches includes off prints. */
  const KeyWordOffOutput: seq<string> := [First, Second, Include1, Include2, Last]

  /** The comment introducer the example outputs presuppose. */
  const ExampleCommentIntro: string := "#"

  /** The include keyword the example outputs presuppose. */
  const ExampleInclKeyWord: string := "@include"

  /** `s` is not blank, has no space at its ends and holds neither '/' nor '#'. */
  predicate Bare(s: string)
  {
    && s != "" && !IsSpace(s[0]) && !IsSpace(s[|s| - 1])
    && forall j :: 0 <= j < |s| ==> s[j] != '/' && s[j] != '#'
  }

  lemma FirstBare() ensures Bare(First) {}
  lemma SecondBare() ensures Bare(Second) {}
  lemma Include1Bare() ensures Bare(Include1) {}
  lemma Include2Bare() ensures Bare(Include2) {}
  lemma LastBare() ensures Bare(Last) {}

  /** The opening line starts with '#', has no space at its end and holds no '/'. */
  lemma OpeningShape()
    ensures Opening != "" && Opening[0] == '#' && !IsSpace(Opening[|Opening| - 1])
    ensures forall j :: 0 <= j < |Opening| ==> Opening[j] != '/'
  {
  }

  /** A bare line is left as it is by either introducer. */
  lemma Unstripped(cmtIntro: string, s: string)
    requires cmtIntro == DefaultCommentIntro || cmtIntro == ExampleCommentIntro
    requires Bare(s)
    ensures StripComment(cmtIntro, s) == s
  {
    StripCommentAt(cmtIntro, s, |s|, 0, |s|);
    assert s[0..|s|] == s;
  }

  /** Lines that stripping leaves as they are, none of them blank, are all kept. */
  lemma {:induction false} KeptWhole(cmtIntro: string, lines: seq<string>)
    requires forall k :: 0 <= k < |lines| ==> StripComment(cmtIntro, lines[k]) == lines[k] != ""
    ensures Kept(cmtIntro, lines) == lines
    decreases |lines|
  {
    if lines != [] {
      KeptWhole(cmtIntro, lines[1..]);
      assert [lines[0]] + lines[1..] == lines;
    }
  }

  /** Five lines that stripping leaves as they are, none of them blank, are all kept. */
  lemma KeptFive(cmtIntro: string, a: string, b: string, c: string, d: string, e: string)
    requires StripComment(cmtIntro, a) == a != "" && StripComment(cmtIntro, b) == b != ""
    requires StripComment(cmtIntro, c) == c != "" && StripComment(cmtIntro, d) == d != ""
    requires StripComment(cmtIntro, e) == e != ""
    ensures Kept(cmtIntro, [a, b, c, d, e]) == [a, b, c, d, e]
  {
    var lines := [a, b, c, d, e];
    forall k | 0 <= k < |lines| ensures StripComment(cmtIntro, lines[k]) == lines[k] != "" {
      if k == 0 {} else if k == 1 {} else if k == 2 {} else if k == 3 {} else {}
    }
    KeptWhole(cmtIntro, lines);
  }

  /** The five lines after the opening one are kept whole under either introducer. */
  lemma BodyKept(cmtIntro: string)
    requires cmtIntro == DefaultCommentIntro || cmtIntro == ExampleCommentIntro
    ensures Kept(cmtIntro, KeyWordOffOutput) == KeyWordOffOutput
  {
    FirstBare();
    SecondBare();
    Include1Bare();
    Include2Bare();
    LastBare();
    Unstripped(cmtIntro, First);
    Unstripped(cmtIntro, Second);
    Unstripped(cmtIntro, Include1);
    Unstripped(cmtIntro, Include2);
    Unstripped(cmtIntro, Last);
    KeptFive(cmtIntro, First, Second, Include1, Include2, Last);
  }

  /** The starting file is the opening line followed by the lines the example prints. */
  lemma StartingFileShape()
    ensures StartingFile == [Opening] + KeyWordOffOutput
    ensures |StartingFile| == 6 && |KeyWordOffOutput| == 5
  {
  }

  /** The lines of the starting file, looked at one by one: the opening one, then the rest. */
  lemma KeptStartingFile(cmtIntro: string)
    requires cmtIntro == DefaultCommentIntro || cmtIntro == ExampleCommentIntro
    ensures Kept(cmtIntro, StartingFile)
              == (if StripComment(cmtIntro, Opening) == "" then [] else [StripComment(cmtIntro, Opening)]) + KeyWordOffOutput
  {
    BodyKept(cmtIntro);
    StartingFileShape();
    assert StartingFile[0] == Opening && StartingFile[1..] == KeyWordOffOutput;
  }

  /** The default introducer leaves the opening line as it is. */
  lemma OpeningUnderDefaultIntro()
    ensures StripComment(DefaultCommentIntro, Opening) == Opening
  {
    OpeningShape();
    StripCommentAt(DefaultCommentIntro, Opening, |Opening|, 0, |Opening|);
    assert Opening[0..|Opening|] == Opening;
  }

  /** The "#" introducer makes the opening line blank. */
  lemma OpeningUnderExampleIntro()
    ensures StripComment(ExampleCommentIntro, Opening) == ""
  {
    OpeningShape();
    assert Opening[0..1] == ExampleCommentIntro;
    StripCommentAt(ExampleCommentIntro, Opening, 0, 0, 0);
  }

  /**
    Under the default introducer and keyword the opening line is content and
    the "@include" lines are not include lines.
  */
  lemma DefaultsMissExampleSyntax()
    ensures StripComment(DefaultCommentIntro, Opening) == Opening
    ensures !IsAnInclLine(DefaultInclKeyWord, Include1).1
    ensures !IsAnInclLine(DefaultInclKeyWord, Include2).1
  {
    OpeningUnderDefaultIntro();
    assert Include1[0] != DefaultInclKeyWord[0];
    assert Include2[0] != DefaultInclKeyWord[0];
  }

  /**
    The example with includes switched off, as written: under the default
    introducer every line of the starting file is handed on, the opening
    one included, so what is printed is not the example's output.
  */
  lemma KeyWordOffUnderDefaultIntro(cfg: Config, env: Env, filename: string)
    requires cfg.cmtIntro == DefaultCommentIntro && cfg.inclKeyWord == ""
    requires Opens(env, filename, []) && env.files[env.expand(filename).value].lines == StartingFile
    ensures var r := ParseFileSpec(cfg, env, filename, []);
            && Texts(r.delivered) == StartingFile
            && Texts(r.delivered) != KeyWordOffOutput
            && r.stats == Stats(1, 6, 6)
  {
    KeptStartingFile(cfg.cmtIntro);
    OpeningUnderDefaultIntro();
    StartingFileShape();
    ParseWithoutIncludes(cfg, env, filename);
  }

  /** Under the examples' syntax the "@include" lines name their files. */
  lemma ExampleSyntaxIncludes()
    ensures IsAnInclLine(ExampleInclKeyWord, Include1) == ("includeFile1", true)
    ensures IsAnInclLine(ExampleInclKeyWord, Include2) == ("includeFile2", true)
  {
    KeyWordThenName(ExampleInclKeyWord, "includeFile1");
    KeyWordThenName(ExampleInclKeyWord, "includeFile2");
  }

  /**
    The example with includes switched off, corrected: under the "#"
    introducer the first line is dropped as a comment and the other five
    are handed on in order, which is the example's output; six lines are
    read and five parsed.
  */
  lemma KeyWordOffUnderExampleIntro(cfg: Config, env: Env, filename: string)
    requires cfg.cmtIntro == ExampleCommentIntro && cfg.inclKeyWord == ""
    requires Opens(env, filename, []) && env.files[env.expand(filename).value].lines == StartingFile
    ensures var r := ParseFileSpec(cfg, env, filename, []);
            && Texts(r.delivered) == KeyWordOffOutput
            && r.stats == Stats(1, 6, 5)
  {
    KeptStartingFile(cfg.cmtIntro);
    OpeningUnderExampleIntro();
    assert [] + KeyWordOffOutput == KeyWordOffOutput;
    ParseWithoutIncludes(cfg, env, filename);
  }
}
