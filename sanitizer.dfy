/**
 * `GuestfishScriptSanitizer`: rejects a guestfish script that runs a local
 * command (`!cmd` or `<!cmd`), pipes through a local command (`|`), or
 * changes the local directory (`lcd`), reporting the script's file name and
 * the 1-based number of the first offending line.
 */
module ScriptSanitizer {
  import opened Common

  /** Java's `\s`: space, tab, newline, vertical tab, form feed, carriage return. */
  predicate IsSpace(c: char)
  {
    c == ' ' || c == '\t' || c == '\n' || c as int == 11 || c as int == 12 || c == '\r'
  }

  /** The line without its leading run of `\s` characters. */
  function TrimLeading(line: string): (r: string)
    ensures EndsWith(line, r)
    ensures r == [] || !IsSpace(r[0])
    ensures forall i :: 0 <= i < |line| - |r| ==> IsSpace(line[i])
  {
    if line != [] && IsSpace(line[0]) then TrimLeading(line[1..]) else line
  }

  /** `^\s*<?!` found: after leading white space, `!` or `<!`. */
  predicate IsLocalCommand(line: string)
  {
    var t := TrimLeading(line);
    StartsWith(t, "!") || StartsWith(t, "<!")
  }

  /** `\|` found anywhere in the line. */
  predicate HasPipe(line: string)
  {
    '|' in line
  }

  /** `^\s*lcd` found: after leading white space, `lcd`. */
  predicate IsLcd(line: string)
  {
    StartsWith(TrimLeading(line), "lcd")
  }

  predicate IsTerminator(c: char)
  {
    c == '\n' || c == '\r'
  }

  /** Index of the first '\n' or '\r', or the length when there is none. */
  function TerminatorIndex(text: string): (i: nat)
    ensures i <= |text|
    ensures i < |text| ==> IsTerminator(text[i])
    ensures forall j :: 0 <= j < i ==> !IsTerminator(text[j])
  {
    if text == [] || IsTerminator(text[0]) then 0 else 1 + TerminatorIndex(text[1..])
  }

  /**
   * The lines successive `BufferedReader.readLine` calls return: a line ends
   * at '\n', '\r' or "\r\n", and a final line needs no terminator.
   */
  function Lines(text: string): (lines: seq<string>)
    ensures forall k :: 0 <= k < |lines| ==> NoTerminators(lines[k])
    decreases |text|
  {
    if text == [] then []
    else
      var i := TerminatorIndex(text);
      if i == |text| then [text]
      else
        var next := if text[i] == '\r' && i + 1 < |text| && text[i + 1] == '\n' then i + 2 else i + 1;
        [text[..i]] + Lines(text[next..])
  }

  predicate NoTerminators(line: string)
  {
    forall j :: 0 <= j < |line| ==> !IsTerminator(line[j])
  }

  /** The text of lines, each ended by '\n'. */
  function JoinLines(lines: seq<string>): string
  {
    if lines == [] then [] else lines[0] + "\n" + JoinLines(lines[1..])
  }

  /** Reading back lines written one per '\n'-terminated line yields the same lines. */
  lemma {:induction false} LinesOfJoinLines(lines: seq<string>)
    requires forall k :: 0 <= k < |lines| ==> NoTerminators(lines[k])
    ensures Lines(JoinLines(lines)) == lines
  {
    if lines != [] {
      var text := JoinLines(lines);
      var l := lines[0];
      var rest := JoinLines(lines[1..]);
      assert text == l + ("\n" + rest);
      assert TerminatorIndex(text) == |l| by {
        TerminatorIndexOfLine(l, "\n" + rest);
      }
      assert text[..|l|] == l;
      assert text[|l| + 1..] == rest;
      LinesOfJoinLines(lines[1..]);
    }
  }

  lemma {:induction false} TerminatorIndexOfLine(l: string, rest: string)
    requires NoTerminators(l) && rest != [] && IsTerminator(rest[0])
    ensures TerminatorIndex(l + rest) == |l|
  {
    if l != [] {
      assert (l + rest)[1..] == l[1..] + rest;
      TerminatorIndexOfLine(l[1..], rest);
    } else {
      assert l + rest == rest;
    }
  }

  datatype Violation = LocalCommand | LocalPipe | ChangeDirectory

  /** The first rule a line breaks, in the order the rules are checked. */
  function Classify(line: string): Option<Violation>
  {
    if IsLocalCommand(line) then Some(LocalCommand)
    else if HasPipe(line) then Some(LocalPipe)
    else if IsLcd(line) then Some(ChangeDirectory)
    else None
  }

  function Message(v: Violation, line: string): string
  {
    match v
    case LocalCommand => "Local commands are not supported: " + line
    case LocalPipe => "Local pipe commands are not supported: " + line
    case ChangeDirectory => "The lcd command is not supported: " + line
  }

  /** A `NodeImageScriptException`: script name, line number (-1 when unknown), message. */
  datatype ScriptError = ScriptError(scriptName: string, lineNumber: int, message: string)

  /** The script file: its text, or the IOException (with its message) reading it fails with. */
  datatype ScriptFile = Readable(text: string) | Unreadable(ioMessage: Option<string>)

  /** No line breaks a rule. */
  predicate Clean(lines: seq<string>)
  {
    forall j :: 0 <= j < |lines| ==> Classify(lines[j]).None?
  }

  /** Index of the first line from `k` on breaking a rule, if any. */
  function FirstViolationFrom(lines: seq<string>, k: nat): (r: Option<nat>)
    requires k <= |lines|
    ensures r.Some? ==> k <= r.value < |lines| && Classify(lines[r.value]).Some?
    ensures r.Some? ==> forall j :: k <= j < r.value ==> Classify(lines[j]).None?
    ensures r.None? ==> forall j :: k <= j < |lines| ==> Classify(lines[j]).None?
    decreases |lines| - k
  {
    if k == |lines| then None
    else if Classify(lines[k]).Some? then Some(k)
    else FirstViolationFrom(lines, k + 1)
  }

  /** Index of the first line breaking a rule, if any. */
  function FirstViolation(lines: seq<string>): (r: Option<nat>)
    ensures r.Some? ==> r.value < |lines| && Classify(lines[r.value]).Some?
    ensures r.Some? ==> forall j :: 0 <= j < r.value ==> Classify(lines[j]).None?
    ensures r.None? <==> Clean(lines)
  {
    FirstViolationFrom(lines, 0)
  }

  /** The first offending line is determined by the lines before it being clean. */
  lemma FirstViolationAt(lines: seq<string>, i: nat)
    requires i < |lines| && Classify(lines[i]).Some?
    requires forall j :: 0 <= j < i ==> Classify(lines[j]).None?
    ensures FirstViolation(lines) == Some(i)
  {
    FirstViolationFromAt(lines, 0, i);
  }

  lemma {:induction false} FirstViolationFromAt(lines: seq<string>, k: nat, i: nat)
    requires k <= i < |lines| && Classify(lines[i]).Some?
    requires forall j :: k <= j < i ==> Classify(lines[j]).None?
    ensures FirstViolationFrom(lines, k) == Some(i)
    decreases i - k
  {
    if k < i {
      FirstViolationFromAt(lines, k + 1, i);
    }
  }

  /** Java's `"" + s` for a possibly null string. */
  function Describe(s: Option<string>): string
  {
    match s
    case None => "null"
    case Some(m) => m
  }

  /** What `validate` throws for a script, or None when the script is accepted. */
  function Verdict(path: string, file: ScriptFile): Option<ScriptError>
  {
    var name := AfterLastSlash(path);
    match file
    case Unreadable(m) => Some(ScriptError(name, -1, "Error processing script: " + Describe(m)))
    case Readable(text) => LinesVerdict(name, Lines(text))
  }

  /** The error for the first offending line of a readable script named `name`. */
  function LinesVerdict(name: string, lines: seq<string>): Option<ScriptError>
  {
    match FirstViolation(lines)
    case None => None
    case Some(i) => Some(ScriptError(name, i + 1, Message(Classify(lines[i]).value, lines[i])))
  }

  /**
   * `validate(scriptFile)`: reads the script line by line and throws at the
   * first line that breaks a rule; an unreadable script is reported on line -1.
   */
  method Validate(path: string, file: ScriptFile) returns (err: Option<ScriptError>)
    ensures err == Verdict(path, file)
    ensures err.None? <==> file.Readable? && Clean(Lines(file.text))
    ensures err.Some? ==> err.value.scriptName == AfterLastSlash(path)
    ensures err.Some? && file.Readable? ==> 1 <= err.value.lineNumber <= |Lines(file.text)|
  {
    var name := AfterLastSlash(path);
    if file.Unreadable? {
      return Some(ScriptError(name, -1, "Error processing script: " + Describe(file.ioMessage)));
    }
    var lines := Lines(file.text);
    assert Verdict(path, file) == LinesVerdict(name, lines);
    var lineno := 0;
    while lineno < |lines|
      invariant 0 <= lineno <= |lines|
      invariant forall j :: 0 <= j < lineno ==> Classify(lines[j]).None?
    {
      var line := lines[lineno];
      lineno := lineno + 1;
      if IsLocalCommand(line) {
        FirstViolationAt(lines, lineno - 1);
        assert !Clean(lines) by { assert Classify(lines[lineno - 1]).Some?; }
        return Some(ScriptError(name, lineno, "Local commands are not supported: " + line));
      }
      if HasPipe(line) {
        FirstViolationAt(lines, lineno - 1);
        assert !Clean(lines) by { assert Classify(lines[lineno - 1]).Some?; }
        return Some(ScriptError(name, lineno, "Local pipe commands are not supported: " + line));
      }
      if IsLcd(line) {
        FirstViolationAt(lines, lineno - 1);
        assert !Clean(lines) by { assert Classify(lines[lineno - 1]).Some?; }
        return Some(ScriptError(name, lineno, "The lcd command is not supported: " + line));
      }
    }
    assert Clean(lines);
    return None;
  }

  predicate AllSpace(ws: string)
  {
    forall i :: 0 <= i < |ws| ==> IsSpace(ws[i])
  }

  /** Leading white space of any length is skipped before the rules look at a line. */
  lemma {:induction false} TrimLeadingSpaces(ws: string, rest: string)
    requires AllSpace(ws) && (rest == [] || !IsSpace(rest[0]))
    ensures TrimLeading(ws + rest) == rest
  {
    if ws == [] {
      assert ws + rest == rest;
    } else {
      assert (ws + rest)[1..] == ws[1..] + rest;
      TrimLeadingSpaces(ws[1..], rest);
    }
  }

  /** `!cmd`, `<!cmd` and `lcd` are rejected however far they are indented. */
  lemma IndentedCommandsRejected(ws: string, cmd: string)
    requires AllSpace(ws)
    ensures Classify(ws + "!" + cmd) == Some(LocalCommand)
    ensures Classify(ws + "<!" + cmd) == Some(LocalCommand)
    ensures '|' !in cmd ==> Classify(ws + "lcd" + cmd) == Some(ChangeDirectory)
  {
    TrimLeadingSpaces(ws, "!" + cmd);
    assert ws + "!" + cmd == ws + ("!" + cmd);
    TrimLeadingSpaces(ws, "<!" + cmd);
    assert ws + "<!" + cmd == ws + ("<!" + cmd);
    TrimLeadingSpaces(ws, "lcd" + cmd);
    assert ws + "lcd" + cmd == ws + ("lcd" + cmd);
    if '|' !in cmd {
      assert '|' !in ws + "lcd" + cmd by {
        forall i | 0 <= i < |ws + "lcd" + cmd|
          ensures (ws + "lcd" + cmd)[i] != '|'
        {
          if i < |ws| {
            assert IsSpace(ws[i]);
          } else if i >= |ws| + 3 {
            assert (ws + "lcd" + cmd)[i] == cmd[i - |ws| - 3];
          }
        }
      }
    }
  }

  /** A script whose second line runs an indented local command is reported on line 2. */
  lemma SecondLineLocalCommandRejected(path: string, first: string, ws: string, cmd: string)
    requires AllSpace(ws) && NoTerminators(first) && NoTerminators(ws + "!" + cmd)
    requires Classify(first).None?
    ensures Verdict(path, Readable(JoinLines([first, ws + "!" + cmd]))) ==
            Some(ScriptError(AfterLastSlash(path), 2, "Local commands are not supported: " + (ws + "!" + cmd)))
  {
    var second := ws + "!" + cmd;
    var lines := [first, second];
    var name := AfterLastSlash(path);
    VerdictOfJoinedLines(path, lines);
    IndentedCommandsRejected(ws, cmd);
    SecondLineVerdict(name, first, second);
  }

  /** A script written as '\n'-terminated lines is judged on those lines. */
  lemma VerdictOfJoinedLines(path: string, lines: seq<string>)
    requires forall k :: 0 <= k < |lines| ==> NoTerminators(lines[k])
    ensures Verdict(path, Readable(JoinLines(lines))) == LinesVerdict(AfterLastSlash(path), lines)
  {
    LinesOfJoinLines(lines);
  }

  /** Two lines of which only the second breaks a rule: the error names line 2 and its rule. */
  lemma SecondLineVerdict(name: string, first: string, second: string)
    requires Classify(first).None? && Classify(second).Some?
    ensures LinesVerdict(name, [first, second]) ==
            Some(ScriptError(name, 2, Message(Classify(second).value, second)))
  {
    FirstViolationAt([first, second], 1);
  }

  /** `lcd` later in a line is not a directory change. */
  lemma LcdOnlyAtLineStart()
    ensures Classify("echo lcd").None?
  {
    assert TrimLeading("echo lcd") == "echo lcd";
    assert "echo lcd"[..1] == "e";
  }
}
