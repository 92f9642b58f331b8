/** The run log: every line is kept in a buffer written to a file at the end, and an
    unfinished status line is replaced by whatever line comes next. Timestamps and the
    current second are inputs; what reaches the terminal is returned rather than printed. */
module Logger {
  import opened Wrappers
  import opened Strings

  const Escape: char := '\U{1B}'
  const LightGrey := "\U{1B}[37m"
  const DarkGrey := "\U{1B}[90m"
  const Red := "\U{1B}[91m"
  const Green := "\U{1B}[92m"
  const Yellow := "\U{1B}[93m"
  const Blue := "\U{1B}[94m"
  const Purple := "\U{1B}[95m"
  const Cyan := "\U{1B}[96m"
  const Clear := "\U{1B}[0m"

  /** The codes `_decolorize_text` removes, in the order it removes them. */
  const AllCodes: seq<string> := [LightGrey, DarkGrey, Red, Green, Yellow, Blue, Purple, Cyan, Clear]

  /** Removing each code in turn. */
  function RemoveCodes(s: string, codes: seq<string>): string
    decreases |codes|
  {
    if codes == [] then s else RemoveCodes(ReplaceAll(s, codes[0], ""), codes[1..])
  }

  /** A line as it goes to the buffer: the timestamp text, a space, the message. */
  function Stamped(stamp: string, message: string): string {
    stamp + " " + message
  }

  /** The buffer after one logged line: an unfinished last line is dropped first, and the
      finished flag follows the new line only when the line is printed. */
  function Step(lines: seq<string>, lastFinished: bool, line: string, finished: bool, printed: bool):
    (r: (seq<string>, bool))
    requires !lastFinished ==> |lines| > 0
    ensures !r.1 ==> |r.0| > 0
    ensures |r.0| > 0 && r.0[|r.0| - 1] == line
    ensures lastFinished ==> |r.0| == |lines| + 1 && r.0[..|lines|] == lines
    ensures !lastFinished ==> |r.0| == |lines| && r.0[..|lines| - 1] == lines[..|lines| - 1]
    ensures r.1 == (if printed then finished else lastFinished)
  {
    var kept := if lastFinished then lines else lines[..|lines| - 1];
    (kept + [line], if printed then finished else lastFinished)
  }

  /** A status line followed by a printed line leaves only the printed line in its place. */
  lemma StatusLineReplaced(lines: seq<string>, lastFinished: bool, status: string, line: string)
    requires !lastFinished ==> |lines| > 0
    ensures var s := Step(lines, lastFinished, status, false, true);
      var t := Step(s.0, s.1, line, true, true);
      t == ((if lastFinished then lines else lines[..|lines| - 1]) + [line], true)
  {
    var s := Step(lines, lastFinished, status, false, true);
    assert s.0[..|s.0| - 1] == (if lastFinished then lines else lines[..|lines| - 1]);
  }

  /** A line that is not printed (a verbose line with verbose output off) does not finish
      a pending status line, so it is itself dropped by the next line. */
  lemma HiddenLineAfterStatus(lines: seq<string>, lastFinished: bool, status: string, hidden: string,
                              line: string)
    requires !lastFinished ==> |lines| > 0
    ensures var s := Step(lines, lastFinished, status, false, true);
      var h := Step(s.0, s.1, hidden, true, false);
      var t := Step(h.0, h.1, line, true, true);
      !h.1 && t.0 == (if lastFinished then lines else lines[..|lines| - 1]) + [line]
  {
    var s := Step(lines, lastFinished, status, false, true);
    var h := Step(s.0, s.1, hidden, true, false);
    assert h.0[..|h.0| - 1] == (if lastFinished then lines else lines[..|lines| - 1]);
  }

  /** What `write_to_file` writes for the given lines. */
  function FileText(lines: seq<string>, colors: bool): string {
    if lines == [] then ""
    else
      FileText(lines[..|lines| - 1], colors) +
      (if colors then RemoveCodes(lines[|lines| - 1], AllCodes) else lines[|lines| - 1]) + "\n"
  }

  /** The file of several buffers is the files of each, one after the other. */
  lemma {:induction false} FileTextAppend(a: seq<string>, b: seq<string>, colors: bool)
    ensures FileText(a + b, colors) == FileText(a, colors) + FileText(b, colors)
    decreases |b|
  {
    if b == [] {
      assert a + b == a;
    } else {
      var b' := b[..|b| - 1];
      assert (a + b)[..|a + b| - 1] == a + b';
      FileTextAppend(a, b', colors);
    }
  }

  lemma NoEscapeNoCode(s: string, k: string)
    requires |k| > 0 && k[0] == Escape && NoChar(s, Escape)
    ensures !Occurs(s, k)
  {
    forall i | 0 <= i && i + |k| <= |s| ensures !OccursAt(s, k, i) {
      assert s[i..i + |k|][0] == s[i] != k[0];
    }
  }

  lemma {:induction false} RemoveCodesPlain(s: string, codes: seq<string>)
    requires NoChar(s, Escape)
    requires forall i :: 0 <= i < |codes| ==> |codes[i]| > 0 && codes[i][0] == Escape
    ensures RemoveCodes(s, codes) == s
    decreases |codes|
  {
    if codes != [] {
      NoEscapeNoCode(s, codes[0]);
      ReplaceAbsent(s, codes[0], "");
      RemoveCodesPlain(s, codes[1..]);
    }
  }

  /** Lines without escape characters are written exactly as buffered, one per line. */
  lemma {:induction false} FileTextPlain(lines: seq<string>, colors: bool)
    requires forall i :: 0 <= i < |lines| ==> NoChar(lines[i], Escape)
    ensures FileText(lines, colors) == if lines == [] then "" else
      FileText(lines[..|lines| - 1], colors) + lines[|lines| - 1] + "\n"
  {
    if lines != [] {
      RemoveCodesPlain(lines[|lines| - 1], AllCodes);
    }
  }

  class Logger {
    const verbose: bool
    const quiet: bool
    /** `_can_output_colors`, decided by the terminal; an input here. */
    const colors: bool
    var lines: seq<string>
    var lastFinished: bool
    var lastOutputTime: int

    ghost predicate Valid()
      reads this
    {
      !lastFinished ==> |lines| > 0
    }

    constructor (quiet: bool, verbose: bool, colors: bool)
      ensures Valid()
      ensures this.quiet == quiet && this.verbose == verbose && this.colors == colors
      ensures lines == [] && lastFinished && lastOutputTime == 0
    {
      this.quiet := quiet;
      this.verbose := verbose;
      this.colors := colors;
      lines := [];
      lastFinished := true;
      lastOutputTime := 0;
    }

    /** A colour code as this log uses it: empty when colours are off. */
    function Color(code: string): (r: string)
      ensures colors ==> r == code
      ensures !colors ==> r == ""
    {
      if colors then code else ""
    }

    /** `colorize`. */
    function Colorize(text: string, color: string): (r: string)
      ensures |r| == |color| + |text| + |Color(Clear)|
      ensures r[..|color|] == color && r[|color|..|color| + |text|] == text
      ensures r[|color| + |text|..] == Color(Clear)
    {
      color + text + Color(Clear)
    }

    /** `log_internal`; returns the text printed, if any. */
    method LogInternal(message: string, finished: bool, shouldPrint: bool, stamp: string)
      returns (printed: Option<string>)
      requires Valid()
      modifies this
      ensures Valid()
      ensures (lines, lastFinished) ==
        Step(old(lines), old(lastFinished), Stamped(stamp, message), finished, shouldPrint && !quiet)
      ensures printed == (if shouldPrint && !quiet then Some(Strip(Stamped(stamp, message))) else None)
      ensures lastOutputTime == old(lastOutputTime)
    {
      var shown := shouldPrint;
      if quiet {
        shown := false;
      }
      var line := Stamped(stamp, message);
      if !lastFinished {
        lines := lines[..|lines| - 1];
      }
      lines := lines + [line];
      printed := None;
      if shown {
        lastFinished := finished;
        printed := Some(Strip(line));
      }
    }

    /** `log`. The `force_print` argument has no effect. */
    method Log(message: string, stamp: string) returns (printed: Option<string>)
      requires Valid()
      modifies this
      ensures Valid()
      ensures (lines, lastFinished) == Step(old(lines), old(lastFinished), Stamped(stamp, message), true, !quiet)
      ensures printed == if !quiet then Some(Strip(Stamped(stamp, message))) else None
      ensures lastOutputTime == old(lastOutputTime)
    {
      printed := LogInternal(message, true, true, stamp);
    }

    /** `log_partial_status` at second `now`: with `checkLastTime`, a second status within
        the same second is dropped. */
    method LogPartialStatus(message: string, checkLastTime: bool, now: int, stamp: string)
      returns (printed: Option<string>)
      requires Valid()
      modifies this
      ensures Valid()
      ensures checkLastTime && old(lastOutputTime) == now ==>
        printed == None && lines == old(lines) && lastFinished == old(lastFinished) &&
        lastOutputTime == old(lastOutputTime)
      ensures !(checkLastTime && old(lastOutputTime) == now) ==>
        lastOutputTime == now &&
        (lines, lastFinished) == Step(old(lines), old(lastFinished), Stamped(stamp, message), false, !quiet) &&
        printed == if !quiet then Some(Strip(Stamped(stamp, message))) else None
    {
      if checkLastTime && lastOutputTime == now {
        return None;
      }
      lastOutputTime := now;
      printed := LogInternal(message, false, true, stamp);
    }

    /** `verbose`: buffered always, printed only in verbose mode. */
    method Verbose(message: string, stamp: string) returns (printed: Option<string>)
      requires Valid()
      modifies this
      ensures Valid()
      ensures (lines, lastFinished) ==
        Step(old(lines), old(lastFinished), Stamped(stamp, message), true, verbose && !quiet)
      ensures printed == if verbose && !quiet then Some(Strip(Stamped(stamp, message))) else None
      ensures lastOutputTime == old(lastOutputTime)
    {
      printed := LogInternal(message, true, verbose, stamp);
    }

    /** `log_warning`. */
    method LogWarning(message: string, stamp: string) returns (printed: Option<string>)
      requires Valid()
      modifies this
      ensures Valid()
      ensures (lines, lastFinished) == Step(old(lines), old(lastFinished),
        Stamped(stamp, Colorize("WARNING:", Color(Yellow)) + " " + message), true, !quiet)
      ensures printed ==
        if !quiet then Some(Strip(Stamped(stamp, Colorize("WARNING:", Color(Yellow)) + " " + message))) else None
      ensures lastOutputTime == old(lastOutputTime)
    {
      printed := Log(Colorize("WARNING:", Color(Yellow)) + " " + message, stamp);
    }

    /** `log_verbose_warning`: nothing at all happens outside verbose mode. */
    method LogVerboseWarning(message: string, stamp: string) returns (printed: Option<string>)
      requires Valid()
      modifies this
      ensures Valid()
      ensures !verbose ==> printed == None && lines == old(lines) && lastFinished == old(lastFinished)
      ensures verbose ==> (lines, lastFinished) == Step(old(lines), old(lastFinished),
        Stamped(stamp, Colorize("WARNING:", Color(Yellow)) + " " + message), true, !quiet)
      ensures verbose ==>
        printed == if !quiet then Some(Strip(Stamped(stamp, Colorize("WARNING:", Color(Yellow)) + " " + message))) else None
      ensures lastOutputTime == old(lastOutputTime)
    {
      printed := None;
      if verbose {
        printed := LogWarning(message, stamp);
      }
    }

    /** `log_error_and_exit`: an empty line, the error line, and exit status 1. */
    method LogErrorAndExit(message: string, stamp: string) returns (exitStatus: int)
      requires Valid()
      modifies this
      ensures Valid()
      ensures exitStatus == 1
      ensures var s := Step(old(lines), old(lastFinished), Stamped(stamp, ""), true, !quiet);
        (lines, lastFinished) ==
          Step(s.0, s.1, Stamped(stamp, Colorize("ERROR:", Color(Red)) + " " + message), true, !quiet)
      ensures lastOutputTime == old(lastOutputTime)
    {
      var _ := Log("", stamp);
      var _ := Log(Colorize("ERROR:", Color(Red)) + " " + message, stamp);
      return 1;
    }

    /** `write_to_file`: the text written. */
    method WriteToFile() returns (text: string)
      ensures text == FileText(lines, colors)
    {
      text := "";
      for i := 0 to |lines|
        invariant text == FileText(lines[..i], colors)
      {
        assert lines[..i + 1][..i] == lines[..i];
        var line := lines[i];
        if colors {
          for j := 0 to |AllCodes|
            invariant RemoveCodes(line, AllCodes[j..]) == RemoveCodes(lines[i], AllCodes)
          {
            assert AllCodes[j..][1..] == AllCodes[j + 1..];
            line := ReplaceAll(line, AllCodes[j], "");
          }
        }
        text := text + line + "\n";
      }
      assert lines[..|lines|] == lines;
    }
  }
}
