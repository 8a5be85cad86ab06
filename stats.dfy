/**
  The run statistics of the parser: how many files were opened, how many
  lines were read from them and how many lines were passed to the line
  handler. A value of the record never changes; the parser replaces it.
*/
module Statistics {

  datatype Stats = Stats(filesVisited: nat, linesRead: nat, linesParsed: nat)
  {
    /** The number of files opened during the last parse. */
    function FilesVisited(): nat { filesVisited }

    /** The number of lines read during the last parse. */
    function LinesRead(): nat { linesRead }

    /** The number of lines handed to the line handler during the last parse. */
    function LinesParsed(): nat { linesParsed }

    /** The report `files: %3d   lines read: %5d   parsed: %5d`. */
    function String(): string
    {
      "files: " + PadLeft(Decimal(filesVisited), 3)
      + "   lines read: " + PadLeft(Decimal(linesRead), 5)
      + "   parsed: " + PadLeft(Decimal(linesParsed), 5)
    }

    /** The counters of two stretches of work added together. */
    function Plus(other: Stats): Stats
    {
      Stats(filesVisited + other.filesVisited,
            linesRead + other.linesRead,
            linesParsed + other.linesParsed)
    }
  }

  /** The zero value `Stats{}` a parse starts from. */
  const Zero := Stats(0, 0, 0)

  lemma PlusZero(s: Stats)
    ensures Zero.Plus(s) == s && s.Plus(Zero) == s
  {
  }

  lemma PlusAssoc(a: Stats, b: Stats, c: Stats)
    ensures a.Plus(b).Plus(c) == a.Plus(b.Plus(c))
  {
  }

  /** Counting a read line before adding `b` is adding `b` with that line counted. */
  lemma ReadThenPlus(a: Stats, b: Stats)
    ensures a.(linesRead := a.linesRead + 1).Plus(b) == a.Plus(b.(linesRead := b.linesRead + 1))
  {
  }

  predicate IsDigit(c: char)
  {
    '0' <= c <= '9'
  }

  function Digit(d: nat): (c: char)
    requires d < 10
    ensures IsDigit(c)
  {
    ('0' as int + d) as char
  }

  /** The decimal numeral of `n`, without leading zeros. */
  function Decimal(n: nat): (r: string)
    ensures |r| >= 1
    ensures forall i :: 0 <= i < |r| ==> IsDigit(r[i])
    ensures |r| > 1 ==> r[0] != '0'
  {
    if n < 10 then [Digit(n)] else Decimal(n / 10) + [Digit(n % 10)]
  }

  /** The number a string of decimal digits denotes. */
  function DecimalValue(s: string): nat
    requires forall i :: 0 <= i < |s| ==> IsDigit(s[i])
  {
    if s == [] then 0
    else
      assert IsDigit(s[|s| - 1]);
      10 * DecimalValue(s[..|s| - 1]) + (s[|s| - 1] as int - '0' as int)
  }

  /** Reading back the numeral of `n` gives `n`: the rendering loses nothing. */
  lemma {:induction false} DecimalRoundTrip(n: nat)
    ensures DecimalValue(Decimal(n)) == n
  {
    if n >= 10 {
      var r := Decimal(n);
      assert r[..|r| - 1] == Decimal(n / 10);
      DecimalRoundTrip(n / 10);
    }
  }

  /** `fmt`'s right alignment in a field of `width` characters. */
  function PadLeft(s: string, width: nat): (r: string)
    ensures |r| == if |s| < width then width else |s|
    ensures r[|r| - |s|..] == s
    ensures forall i :: 0 <= i < |r| - |s| ==> r[i] == ' '
  {
    if |s| < width then seq(width - |s|, _ => ' ') + s else s
  }

  /** The zero record reports zero everywhere, in both the accessors and the report. */
  lemma ZeroReport()
    ensures Zero.FilesVisited() == 0 && Zero.LinesRead() == 0 && Zero.LinesParsed() == 0
    ensures Zero.String() == "files:   0   lines read:     0   parsed:     0"
  {
    assert Decimal(0) == "0";
    assert PadLeft("0", 3) == "  0";
    assert PadLeft("0", 5) == "    0";
    assert "files: " + "  0" == "files:   0";
    assert "files:   0" + "   lines read: " == "files:   0   lines read: ";
    assert "files:   0   lines read: " + "    0" == "files:   0   lines read:     0";
    assert "files:   0   lines read:     0" + "   parsed: " == "files:   0   lines read:     0   parsed: ";
    assert "files:   0   lines read:     0   parsed: " + "    0" == "files:   0   lines read:     0   parsed:     0";
  }
}
