/** The log panel: the last lines written, shown on a text panel one per line. */
module Logging {

  /** A `short`, as the panel's line limit and the script's timer delay are read. */
  newtype int16 = x: int | -0x8000 <= x < 0x8000

  /** The lines with the separator between each two neighbours. */
  function Join(lines: seq<string>, sep: string): string
    decreases |lines|
  {
    if lines == [] then ""
    else if |lines| == 1 then lines[0]
    else Join(lines[..|lines| - 1], sep) + sep + lines[|lines| - 1]
  }

  /** Joining the two parts of a split and putting the separator between them gives the
      joined whole. */
  lemma {:induction false} JoinSplit(lines: seq<string>, sep: string, k: nat)
    requires 0 < k < |lines|
    ensures Join(lines, sep) == Join(lines[..k], sep) + sep + Join(lines[k..], sep)
    decreases |lines|
  {
    var n := |lines| - 1;
    assert lines[..n][..k] == lines[..k];
    if k == n {
      assert lines[k..] == [lines[n]];
    } else {
      JoinSplit(lines[..n], sep, k);
      var rest := lines[k..];
      assert rest[..|rest| - 1] == lines[..n][k..];
      assert rest[|rest| - 1] == lines[n];
    }
  }

  /** The line list after writing `txt`: appended, and the oldest dropped when a positive
      limit is exceeded. */
  function Appended(lines: seq<string>, maxLines: int16, txt: string): seq<string>
  {
    var added := lines + [txt];
    if maxLines > 0 && |added| > maxLines as int then added[1..] else added
  }

  /** The limit holds: a positive limit bounds the number of lines. */
  ghost predicate Bounded(lines: seq<string>, maxLines: int16)
  {
    maxLines > 0 ==> |lines| <= maxLines as int
  }

  /** The written line comes last and the kept lines keep their order: the result is the
      old lines and the new one, less the oldest exactly when a positive limit is exceeded;
      with no positive limit the list grows by one; a bounded list stays bounded. */
  lemma AppendedProperties(lines: seq<string>, maxLines: int16, txt: string)
    ensures var r := Appended(lines, maxLines, txt);
      && |r| > 0 && r[|r| - 1] == txt
      && (if maxLines > 0 && |lines| + 1 > maxLines as int
          then r == lines[1..] + [txt] && |r| == |lines|
          else r == lines + [txt])
      && (maxLines <= 0 ==> |r| == |lines| + 1)
      && (Bounded(lines, maxLines) ==> Bounded(r, maxLines))
  {
    if maxLines > 0 && |lines| + 1 > maxLines as int {
      assert (lines + [txt])[1..] == lines[1..] + [txt];
    }
  }

  class LogPanel {
    /** The line limit from the panel's configuration; zero or less means no limit. */
    const maxLines: int16
    /** The platform's line separator. */
    const newLine: string
    var lines: seq<string>
    /** What the panel shows. */
    var text: string

    /** A panel with its limit read from its configuration, before anything was written. */
    constructor (maxLines: int16, newLine: string)
      ensures this.maxLines == maxLines && this.newLine == newLine
      ensures lines == [] && Bounded(lines, maxLines)
    {
      this.maxLines := maxLines;
      this.newLine := newLine;
      lines := [];
      text := "";
    }

    /** Appends the line, drops the oldest when the limit is exceeded, and shows the lines. */
    method WriteText(txt: string)
      modifies this`lines, this`text
      ensures lines == Appended(old(lines), maxLines, txt)
      ensures text == Join(lines, newLine)
      ensures Bounded(old(lines), maxLines) ==> Bounded(lines, maxLines)
    {
      AppendedProperties(lines, maxLines, txt);
      lines := lines + [txt];
      if maxLines > 0 && |lines| > maxLines as int {
        lines := lines[1..];
      }
      text := Join(lines, newLine);
    }
  }
}
