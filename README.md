# fileparse: the include-following line preprocessor, in Dafny

This project models the core of the Go package `fileparse`. A file parser
(`FP`) is built with a file-type description and a line handler. It reads a
file line by line. Each line loses everything from the first comment
introducer on ("//" by default) and its surrounding white space, and lines
that are then blank are dropped. A line that starts with the include keyword
("#include" by default) makes the parser read the named file at that point.
A relative name is taken from the directory of the including file. Every
other line is handed to the line handler. Before a file is opened, the
include chain that led to it is checked, so that a file already being read
further up is reported as a loop and not read again. Errors from every level
are gathered into one flat list and never stop the scan. The parser counts
the files it opened, the lines it read and the lines it handed on (`Stats`).

Modules:

- `Wrappers` (wrappers.dfy): `Option`.
- `GoStrings` (gostrings.dfy): the Go string functions the parser calls:
  `strings.TrimSpace`, `strings.SplitN(s, sep, 2)[0]`, `strings.HasPrefix`
  and `strings.TrimPrefix`.
- `FilePaths` (filepaths.dfy): `filepath.IsAbs`, `Clean`, `Dir` and `Join`
  on Unix paths. `Clean` is a stack of kept elements.
- `Statistics` (stats.dfy): the `Stats` record, its accessors, its report
  string and the sum of two stretches of counting.
- `Parser` (parser.dfy): the parser.
  - The pure helpers `StripComment`, `IsAnInclLine`, `FixIncludeFileName`
    and `NoteStr`.
  - Specification functions that say what parsing a file does, as a value
    `Run` (errors, handler calls, counters, nesting depth, files opened).
    These are `ParseFileSpec`, `ScanLines`, `LineStep` and `IncludeStep`.
  - The class `FP`, whose fields the setters and `Parse` assign. Its
    recursive `ParseFile` method and its scanning loop `ScanFile` are proved
    to do exactly what the specification functions say.
- `ParserLemmas` (parser_lemmas.dfy): properties of the parser. These cover
  comment stripping, include detection and include path fixing. They also
  cover loop safety and the depth bound, where handled lines come from,
  handler errors, and parsing with includes switched off.
- `ParserScenarios` (scenarios.dfy): the parses of the package's own test
  table, each proved for every file system of the tested shape. Also the
  splicing of an included file into the handler's stream, one and two
  includes deep, and a diamond of includes that is not a loop.
- `ExampleFiles` (example_files.dfy): the starting file of the package's
  worked examples, read under the default syntax and under the syntax the
  printed outputs presuppose (see "Findings").

The outside world is passed in as parameters:

- The file system is an `Env`: a map from expanded path to `File(lines,
  readFault)`. A path that is not in the map cannot be opened.
  `readFault` stands for a scanner error at the end of the file.
- The expansion of a raw name (`FixFileName`: tilde expansion and
  cleaning) is the oracle `Env.expand`, which may fail.
- The line handler is a function from line and location to `None` (it
  accepts the line) or `Some(message)` (it reports an error). The parser
  records every call it makes in the field `handled`, in order.

## Model

| member | source | states |
|---|---|---|
| Parser.StripComment | fileparse/parser.go:66-73 | The result is trimmed and no longer than the line. With an empty introducer it is `TrimSpace` of the line. With a non-empty introducer it never contains the introducer. |
| ParserLemmas.StripCommentCutsAtFirstIntro | fileparse/parser.go:71-72 | With a non-empty introducer, the result is the trimmed text before the introducer's first occurrence, or the whole line trimmed if there is none. |
| ParserLemmas.StripCommentIdempotent | fileparse/parser.go:66-73 | Stripping an already stripped line changes nothing, for every introducer. |
| ParserLemmas.StripCommentDropsComment | fileparse/parser_internal_test.go:63 | `"abc // test"` becomes `"abc"` under "//". |
| ParserLemmas.StripCommentAllComment | fileparse/parser_internal_test.go:64 | `" // test"` becomes blank under "//". |
| ParserLemmas.StripCommentBlank | fileparse/parser_internal_test.go:65 | A line of spaces becomes blank. |
| ParserLemmas.StripCommentTrims | fileparse/parser_internal_test.go:66 | `"abc "` becomes `"abc"`. |
| ParserLemmas.StripCommentOtherIntroKept | fileparse/parser_internal_test.go:81 | Under "#", `"abc // test"` is kept whole. |
| ParserLemmas.StripCommentOtherIntroTrimmed | fileparse/parser_internal_test.go:82 | Under "#", `" // test"` becomes `"// test"`. |
| ParserLemmas.StripCommentHash | fileparse/parser_internal_test.go:83 | Under "#", `"abc # test"` becomes `"abc"`. |
| ParserLemmas.StripCommentHashAllComment | fileparse/parser_internal_test.go:84 | Under "#", `" # test"` becomes blank. |
| Parser.IsAnInclLine | fileparse/parser.go:82-91 | A line is an include line exactly when the keyword is non-empty and starts the line. The name is then `TrimSpace` of the rest of the line; otherwise it is empty. The name is always trimmed. |
| ParserLemmas.NotAnInclLine | fileparse/parser_internal_test.go:14-36 | `"has no include directive"` is no include line, under "#include" and under "INCLUDE". |
| ParserLemmas.InclLineWithoutName | fileparse/parser_internal_test.go:16 | `"#include "` is an include line with an empty name. |
| ParserLemmas.InclLineWithName | fileparse/parser_internal_test.go:17 | `"#include xxx "` is an include line naming `"xxx"`. |
| ParserLemmas.OtherKeyWordWithoutName | fileparse/parser_internal_test.go:35 | Under "INCLUDE", `"INCLUDE "` is an include line with an empty name. |
| ParserLemmas.OtherKeyWordWithName | fileparse/parser_internal_test.go:36 | Under "INCLUDE", `"INCLUDE xxx "` names `"xxx"`. |
| Parser.FixIncludeFileName | fileparse/parser.go:108-113 | An absolute target is returned unchanged. The result is absolute exactly when the target or the including file's name is, and it is never empty. |
| ParserLemmas.RelativeIncludeBesideIncluder | fileparse/parser.go:108-113 | A relative target of plain elements, included from `lead d1/…/dn/base` where `lead` is "/", "./" or nothing and the directory part may be empty, is opened as `d1/…/dn/target`, rooted exactly when `lead` is "/". So "main" including "sub" opens "sub", and "./testdata/a" including "b" opens "testdata/b". |
| GoStrings.TrimSpace | fileparse/parser.go:68 | The result is trimmed. It is the slice of the input after the leading white space, and only white space follows it. |
| GoStrings.TrimSpaceIdempotent | fileparse/parser.go:68 | Trimming twice is trimming once. |
| GoStrings.SplitFirst | fileparse/parser.go:71 | The result is the prefix of the line before the first occurrence of the separator (or the whole line), and it does not contain the separator. |
| GoStrings.TrimPrefix | fileparse/parser.go:87 | With the prefix present, prefix + result is the line; otherwise the line is returned. |
| FilePaths.SplitJoin | fileparse/parser.go:112 | Joining the pieces of a path split at "/" gives the path back. |
| FilePaths.Clean | fileparse/parser.go:112 | The cleaned path is never empty and is absolute exactly when the input is. |
| FilePaths.CleanPlain | fileparse/parser.go:112 | A path of plain elements (no empty element, ".", "..") is already clean, with or without a trailing "/". |
| FilePaths.Dir | fileparse/parser.go:112 | The directory is never empty and is absolute exactly when the path is. |
| FilePaths.CleanSplit | fileparse/parser.go:112 | A path whose pieces are empty or "." elements, then plain elements, then empty or "." elements again cleans to the plain elements, rooted as the path is, or to "." when there are none and the path is relative. |
| FilePaths.DirOfPrefix | fileparse/parser.go:112 | The directory of `lead d1/…/dn/base` is "/d1/…/dn" for the lead "/", else "d1/…/dn", or "." when the directory part is empty. |
| FilePaths.JoinRoot | fileparse/parser.go:112 | Joining "/" and a relative path of plain elements gives that path rooted. |
| FilePaths.JoinDot | fileparse/parser.go:112 | Joining "." and a relative path of plain elements gives that path. |
| FilePaths.JoinDirOfPrefix | fileparse/parser.go:112 | Joining the directory of `lead d1/…/dn/base` with plain elements `t1/…/tk` gives `d1/…/dn/t1/…/tk`, rooted exactly when `lead` is "/". |
| FilePaths.Join | fileparse/parser.go:112 | The join is empty only when both parts are. It is absolute exactly when its first non-empty part is. |
| FilePaths.JoinPlain | fileparse/parser.go:112 | Joining a plain directory and a plain relative target appends the target's elements. |
| Parser.ParseFileSpec | fileparse/parser.go:125-189 | Lines handed on = lines parsed ≤ lines read. Files visited = number of files opened, and all of them exist. Lines read = the total length of the files opened. Nothing is visited exactly when the name cannot be expanded, is already on the chain, or cannot be opened. Each of those gives exactly one error, no handler call and zero counters. Otherwise the expanded file is the first one opened. |
| Parser.ScanLines | fileparse/parser.go:153-182 | Scanning from line `i`: parsed = handed on ≤ read. Files visited = files opened, all of them existing. Lines read = the remaining lines of this file plus all lines of the files opened. |
| Parser.LineStep | fileparse/parser.go:154-181 | One line: it is read, plus the lines of the files it opens. Lines handed on = lines parsed, and files visited = files opened. |
| Parser.IncludeStep | fileparse/parser.go:163-176 | An include line: it is read, plus the lines of the files it opens. Lines handed on = lines parsed, and files visited = files opened. |
| Parser.StepBlank | fileparse/parser.go:158-161 | A line that is blank once stripped counts as read and does nothing else. |
| Parser.StepIncludeLine | fileparse/parser.go:163-164 | A non-blank line that is an include line is handled by `IncludeStep` and never reaches the handler. |
| Parser.StepMissingName | fileparse/parser.go:165-168 | An include line without a name is exactly one error, carrying its location and original text. It is read but not parsed, and nothing is opened. |
| Parser.StepInclude | fileparse/parser.go:171-175 | An include line with a name parses the target, resolved relative to the unexpanded name of the including file, with the chain extended by the line's location. Its errors, handler calls and counters become the line's, plus one line read. |
| Parser.StepContent | fileparse/parser.go:178-181 | Any other line is read and parsed, and is handed to the handler once with its location. The handler's error, if any, is the line's only error. |
| Parser.ScanStep | fileparse/parser.go:153-182 | Scanning from a line is that line's effect followed by the scan of the rest, whatever errors the line produced. An error never stops the scan, and later errors and handler calls follow earlier ones. |
| Parser.FP.New | fileparse/parser.go:40-46 | A new parser has the given description and handler, the default introducer "//" and keyword "#include", zero counters and no handler calls. |
| Parser.FP.SetCommentIntro | fileparse/parser.go:52-54 | Sets the comment introducer and nothing else. |
| Parser.FP.SetInclKeyWord | fileparse/parser.go:59-61 | Sets the include keyword and nothing else. |
| Parser.FP.Parse | fileparse/parser.go:99-103 | Counters restart from zero. The returned errors and the new counters are those of `ParseFileSpec` from the empty chain. The handler receives its calls in that order. |
| Parser.FP.ParseFile | fileparse/parser.go:125-189 | The recursive parse returns `ParseFileSpec`'s errors. It adds its counters to the parser's and appends its handler calls. |
| Parser.FP.ScanFile | fileparse/parser.go:153-182 | The scanning loop returns `ScanLines`'s errors. It adds its counters and appends its handler calls. |
| Parser.FP.ScanLine | fileparse/parser.go:154-181 | One turn of the loop does what `LineStep` says. |
| Parser.FP.ScanInclude | fileparse/parser.go:163-176 | The include branch of the loop does what `IncludeStep` says. |
| ParserLemmas.ExtendNoRepeats | fileparse/parser.go:174 | Extending a chain of distinct names by the location of a file that passed the loop check keeps the names distinct. |
| ParserLemmas.FileDepth | fileparse/parser.go:137-174 | Files open at once never exceed the openable files not already on the chain. |
| ParserLemmas.ParseDepth | fileparse/parser.go:137-142 | A whole parse never nests deeper than the number of files there are. |
| ParserLemmas.FileProvenance | fileparse/parser.go:153-181 | Every handler call comes from a real line `loc.line` of an opened file `loc.source`. Its text is that line stripped, non-blank and not an include line. Its note carries the file type and a chain of distinct names that extends the caller's chain and does not hold the file itself. |
| ParserLemmas.ParseProvenance | fileparse/parser.go:99-103 | The same, for a whole parse. |
| ParserLemmas.NullParserAcceptsAll | fileparse/lineParser.go:24-27 | The null handler accepts every line. |
| ParserLemmas.FileHandlerErrors | fileparse/parser.go:179-181 | With a handler that accepts every line, no reported error comes from the handler. |
| ParserLemmas.ScanWithoutIncludes | fileparse/parser.go:153-182 | With the keyword switched off, the handler receives exactly the stripped non-blank lines, in order. Every line is read, and only those lines are parsed. |
| ParserLemmas.ParseWithoutIncludes | fileparse/parser.go:56-61 | A parse with the keyword switched off hands on exactly the kept lines of the one file it opens. Include lines are ordinary content. |
| ParserScenarios.UnknownUser | fileparse/parser_test.go:53 | A name that cannot be expanded gives exactly one error and zero counters. |
| ParserScenarios.NoSuchFile | fileparse/parser_test.go:54 | A file that does not exist gives exactly one error and zero counters. |
| ParserScenarios.EmptyFile | fileparse/parser_test.go:55 | An empty file gives no error, one file visited and nothing read. |
| ParserScenarios.OneInclude | fileparse/parser_test.go:56 | A file that includes an empty file gives no error, two files and one line read. |
| ParserScenarios.IncludeLoopSelf | fileparse/parser_test.go:57 | A file that includes itself gives one error, one file and one line read. |
| ParserScenarios.IncludeLoopStart | fileparse/parser_test.go:58 | A loop whose last file includes the second (`a`→`b`→`c`→`b`) gives one error, three files and three lines read. |
| ParserScenarios.IncludeLoopToStart | fileparse/parser_test.go:58 | A loop whose last file includes the start file (`a`→`b`→`c`→`a`) gives the same counts: one error, three files and three lines read. |
| ParserScenarios.BadIncludeFormat | fileparse/parser_test.go:59 | The keyword without a name gives one error, one file and one line read. |
| ParserScenarios.BadIncludeFileNonexistent | fileparse/parser_test.go:60 | An include of an absent file gives one error, one file and one line read. |
| ParserScenarios.FileWithContent | fileparse/parser_test.go:61 | A comment line and a content line give no error, one file, two lines read and one parsed. |
| ParserScenarios.IncludesEmpty | fileparse/parser.go:163-175 | For any file names: including an empty file gives no error, two files visited and one line read. |
| ParserScenarios.IncludesItself | fileparse/parser.go:137-142 | A file that includes itself: a single loop error naming it, one file visited, one line read. |
| ParserScenarios.IncludesAbsent | fileparse/parser.go:144-147 | Including an absent file: the failed open is the only error, one file visited, one line read. |
| ParserScenarios.IncludesNothing | fileparse/parser.go:165-168 | The keyword alone: exactly the missing-name error at line 1, with its original text. |
| ParserScenarios.IncludesLoopBack | fileparse/parser.go:137-142 | `m` includes `n`, and `n` and `o` include each other: one loop error naming `n`, three files visited, three lines read. |
| ParserScenarios.CommentThenContent | fileparse/parser.go:158-181 | A comment line then a content line: only the content line reaches the handler, at line 2. |
| ParserScenarios.IncludeOfLoop | fileparse/parser.go:137-142 | The same loop shape for any names and any include lines that name the next file. |
| ParserScenarios.IncludesCycle | fileparse/parser.go:137-142 | `m` includes `n`, `n` includes `o` and `o` includes `m`: one loop error naming `m`, three files visited, three lines read. |
| ParserScenarios.IncludeOfCycle | fileparse/parser.go:137-142 | The same cycle for any names and any include lines that name the next file. |
| ParserScenarios.SplicedAtInclude | fileparse/parser.go:163-182 | A file holding content, a blank (comment) line, content, an include and content, where the included file holds one content line. The handler gets the four content lines in order, the included one at the include point with the include line on its chain. There are no errors, two files, six lines read and four parsed. |
| ParserScenarios.NestedSplice | fileparse/parser.go:163-182 | `r` includes `s` then holds a content line, `s` includes `u` then holds a content line, and `u` holds one content line. The handler gets the line of `u` (both include lines on its chain), then the last line of `s` (the include line of `r` on its chain), then the last line of `r`. There are no errors, three files visited, five lines read and three parsed. |
| ParserScenarios.DiamondNotALoop | fileparse/parser.go:137-142 | `a` includes `b` and `c`, and both include `d`. This is no loop: no error, and `d` is opened twice (five files visited, four lines read). |
| ExampleFiles.DefaultsMissExampleSyntax | fileparse/parser.go:19-20 | Under the default introducer "//" the starting file's first line "# This is the first file read by the example" stays as it is, and under the default keyword "#include" the lines "@include includeFile1" and "@include includeFile2" are not include lines. |
| ExampleFiles.KeyWordOffUnderDefaultIntro | fileparse/parser_example_test.go:26-35 | With the keyword switched off and the default introducer, a parse of the starting file hands on all six of its lines, the "# This …" line first, so what it prints differs from the example's five-line output. |
| ExampleFiles.ExampleSyntaxIncludes | fileparse/parser_example_test.go:7-19 | Under the keyword "@include" the two include lines of the starting file name "includeFile1" and "includeFile2". |
| ExampleFiles.KeyWordOffUnderExampleIntro | fileparse/parser_example_test.go:26-35 | With the keyword switched off and the introducer "#", the parse hands on exactly the five lines the example prints, in order: one file, six lines read, five parsed. |
| Statistics.Decimal | fileparse/stats.go:14 | The numeral is non-empty, made of digits, and has no leading zero. |
| Statistics.DecimalRoundTrip | fileparse/stats.go:14 | Reading back the numeral of `n` gives `n`. |
| Statistics.PadLeft | fileparse/stats.go:14 | Right alignment: the width is met, the text ends the result, and only spaces precede it. |
| Statistics.ZeroReport | fileparse/parser_test.go:75-84 | The zero record reports 0 from all three accessors and renders as `"files:   0   lines read:     0   parsed:     0"`. |

## Left out

- `FixFileName` and `ExpandTilde` (fileparse/filename.go) are not part of this model. Name expansion is the oracle `Env.expand`. Each scenario states what expansion does to the names it opens: most leave them as given, and `UnknownUser` has expansion fail on its one name.
- Real I/O (`os.Open`, `bufio.Scanner`, closing the file) is replaced by the map `Env.files`. A scanner error is the flag `File.readFault`, which adds one error after the file's lines.
- `EchoParser` writes to an `io.Writer`. It is not modelled. The line handler is an abstract function and `NullParser` is the one that accepts everything.
- The internals of the location package (`HasLoop`, `LocChain.String`, `Errorf`, `SetNote`, `Incr`) are not part of this model. A location is (file, line, note), and the loop check is membership of the name among the chain's sources. `Loc.SetContent` appears only as the text carried by the missing-name error.
- Error texts and the `noteStr` formatting are not modelled. `NoteStr` keeps the file type and the chain as a value, and errors are constructors that keep only the data they mention.
- `Stats.String` is modelled with `fmt`'s `%3d`/`%5d` padding for non-negative numbers. Only the zero value's rendering is proved.
- `FP.Stats()`: the counters are the field `stats`, read directly.
- The accessors `FilesVisited`, `LinesRead` and `LinesParsed` are functions of an immutable record. That they return the fields and change nothing holds by construction, so no lemma restates it.
- The test table's file names (`./testdata/…`) are one-letter absolute paths in the scenarios. File contents are stated for every file system of the tested shape, not as literal testdata.
- The testdata tree of the worked examples is not part of this model. The starting file's lines are taken from what `ExampleFP_SetCommentIntro` prints. The include files' contents are not known, so `ExampleFP_Parse`'s full output is not derived; the splicing it shows is proved for general shapes by `SplicedAtInclude` (one level) and `NestedSplice` (two levels).
- Lines are sequences of Unicode characters. Go's `scanner.Text()` gives bytes, so `TrimSpace` on invalid UTF-8 and the byte-wise comparisons of `Index`, `HasPrefix` and `TrimPrefix` are modelled on decoded text only.
- `FilePaths.Clean` follows `filepath.Clean` on Unix only (no volume names), and `Join` is modelled for the two-argument call the parser makes.
- Go `int` counters are unbounded `nat`s: overflow after 2^63 lines is not modelled.

Facts about the code that the model makes explicit:

- There is no option to pass blank lines through or to turn trimming off. Blank lines are always dropped (fileparse/parser.go:159-161) and lines are always trimmed (fileparse/parser.go:68 and 72).
- `linesRead` counts the lines of included files as well as the include line. The two files of the `SplicedAtInclude` shape give six lines read: five in the including file and one in the included file.
- A relative include target is resolved against the unexpanded name of the including file (fileparse/parser.go:171), not its expanded name. `StepInclude` states this.

## Findings

| source | as written | input that shows it | evidently intended | confidence | as-written member | corrected member |
|---|---|---|---|---|---|---|
| fileparse/parser_example_test.go:26-35 | `ExampleFP_SetInclKeyWord` keeps the default comment introducer "//" (fileparse/parser.go:20), yet its printed output leaves out the starting file's first line; `ExampleFP_Parse` (lines 7-19) likewise leaves it out and follows "@include" lines, which the default keyword "#include" (fileparse/parser.go:19) does not recognise | the starting file, whose first line is "# This is the first file read by the example" and whose include lines are "@include includeFile1" and "@include includeFile2" | the examples configure the introducer "#" and the keyword "@include" (or their testdata use "//" and "#include") | not executed; medium: the testdata tree is not part of this model, and its lines are taken from the output of `ExampleFP_SetCommentIntro` | ExampleFiles.KeyWordOffUnderDefaultIntro | ExampleFiles.KeyWordOffUnderExampleIntro |
