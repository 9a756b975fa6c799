/**
 * `GuestfsNodeImageService`: the customisation step that runs the
 * `guestfish` tool on the staged image, with the uploaded `.fish` script
 * on its standard input and the request parameters in its environment,
 * and reports the tool's output.
 *
 * Starting the process and reading its output are outside the model: the
 * lines the tool prints and its exit code are parameters.
 */
module Guestfish {
  import opened Common
  import opened NodeImageService

  const DefaultGuestfishBin := "guestfish"

  /** The extension that marks the resource holding the guestfish commands. */
  const ScriptResourceNameExtension := ".fish"

  /** The exception thrown when no resource carries the script extension. */
  const NoScriptResource := Failure("IllegalArgumentException", Some("No " + ScriptResourceNameExtension + " resource provided"))

  /** The failure of starting the process (its text is not modelled). */
  const StartFailure := Failure("IOException", None)

  // ---------------------------------------------------------------------
  // Captured output

  /** The lines after the leading empty ones. */
  function DropLeadingEmpty(lines: seq<string>): (r: seq<string>)
    ensures r == [] || r[0] != ""
    ensures |r| <= |lines|
  {
    if |lines| > 0 && lines[0] == "" then DropLeadingEmpty(lines[1..]) else lines
  }

  /** The dropped lines are all empty, and what is kept is the rest, unchanged. */
  lemma {:induction false} DropLeadingEmptySuffix(lines: seq<string>)
    ensures |DropLeadingEmpty(lines)| <= |lines|
    ensures DropLeadingEmpty(lines) == lines[|lines| - |DropLeadingEmpty(lines)|..]
    ensures forall i :: 0 <= i < |lines| - |DropLeadingEmpty(lines)| ==> lines[i] == ""
  {
    if |lines| > 0 && lines[0] == "" {
      DropLeadingEmptySuffix(lines[1..]);
    }
  }

  /**
   * What the output loop accumulates: the lines joined by '\n', except
   * that a separator is only written once something has been captured,
   * so leading empty lines leave no trace.
   */
  function Captured(lines: seq<string>): string
  {
    Join(DropLeadingEmpty(lines), '\n')
  }

  /** One more line read: the captured text grows by a separator (if non-empty) and the line. */
  lemma CapturedSnoc(lines: seq<string>, line: string)
    ensures Captured(lines + [line]) ==
            if |Captured(lines)| > 0 then Captured(lines) + "\n" + line else Captured(lines) + line
  {
    var d := DropLeadingEmpty(lines);
    DropLeadingEmptySuffix(lines);
    var k := |lines| - |d|;
    assert forall i :: 0 <= i < k ==> (lines + [line])[i] == "";
    DropLeadingEmptyAfter(lines + [line], k);
    assert (lines + [line])[k..] == d + [line];
    if d == [] {
      assert Captured(lines) == "";
      DropLeadingEmptyAfter([line], 0);
      assert (lines + [line])[k..] == [line];
    } else {
      assert |Captured(lines)| > 0;
      assert DropLeadingEmpty(d + [line]) == d + [line];
      JoinSnoc(d, line, '\n');
    }
  }

  /** Dropping the leading empty lines skips any empty prefix first. */
  lemma {:induction false} DropLeadingEmptyAfter(lines: seq<string>, k: nat)
    requires k <= |lines|
    requires forall i :: 0 <= i < k ==> lines[i] == ""
    ensures DropLeadingEmpty(lines) == DropLeadingEmpty(lines[k..])
    decreases k
  {
    if k > 0 {
      DropLeadingEmptyAfter(lines[1..], k - 1);
      assert lines[1..][k - 1..] == lines[k..];
    }
  }

  /**
   * The output loop of `createImageInternal`: each line read is appended,
   * preceded by '\n' when the output is already non-empty.
   */
  method CaptureOutput(lines: seq<string>) returns (output: string)
    ensures output == Captured(lines)
  {
    output := "";
    var i := 0;
    while i < |lines|
      invariant 0 <= i <= |lines|
      invariant output == Captured(lines[..i])
    {
      CapturedSnoc(lines[..i], lines[i]);
      assert lines[..i + 1] == lines[..i] + [lines[i]];
      if |output| > 0 {
        output := output + "\n";
      }
      output := output + lines[i];
      i := i + 1;
    }
    assert lines[..i] == lines;
  }

  /**
   * Nothing but the leading empty lines is lost: splitting the captured
   * output at '\n' gives back the lines from the first non-empty one on.
   */
  lemma CapturedRecoversLines(lines: seq<string>)
    requires forall i :: 0 <= i < |lines| ==> '\n' !in lines[i]
    ensures DropLeadingEmpty(lines) == [] ==> Captured(lines) == ""
    ensures DropLeadingEmpty(lines) != [] ==> SplitAll(Captured(lines), '\n') == DropLeadingEmpty(lines)
  {
    var d := DropLeadingEmpty(lines);
    DropLeadingEmptySuffix(lines);
    if d != [] {
      forall i | 0 <= i < |d|
        ensures '\n' !in d[i]
      {
        assert d[i] == lines[|lines| - |d| + i];
      }
      SplitAllJoin(d, '\n');
    }
  }

  // ---------------------------------------------------------------------
  // The process

  /** `Path.getParent()`: the path up to its last '/', the root for "/x", null without a '/'. */
  function ParentOf(path: string): (r: Option<string>)
    ensures r.None? <==> '/' !in path
  {
    var i := LastIndexOf(path, '/');
    if i < 0 then None else if i == 0 then Some("/") else Some(path[..i])
  }

  /** The parent of `dir/name` is `dir` for a non-empty `dir` and a `name` without '/'. */
  lemma ParentOfResolved(dir: string, name: string)
    requires dir != [] && '/' !in name
    ensures ParentOf(dir + "/" + name) == Some(dir)
    ensures AfterLastSlash(dir + "/" + name) == name
  {
    AfterLastSlashOfPath(dir, name);
    var p := dir + "/" + name;
    assert p[|dir|] == '/';
    assert LastIndexOf(p, '/') == |dir|;
    assert p[..|dir|] == dir;
  }

  /** A resource holding guestfish commands: its path, and so its file name, ends in ".fish". */
  predicate IsScript(path: string)
  {
    EndsWith(path, ScriptResourceNameExtension)
  }

  /** Testing the whole path is testing the file name, as the extension holds no '/'. */
  lemma ScriptByFileName(path: string)
    ensures IsScript(path) <==> EndsWith(AfterLastSlash(path), ScriptResourceNameExtension)
  {
    var ext := ScriptResourceNameExtension;
    var i := LastIndexOf(path, '/');
    var name := AfterLastSlash(path);
    assert name == path[i + 1..];
    if IsScript(path) {
      assert '/' !in ext;
      assert i < |path| - |ext|;
      assert name[|name| - |ext|..] == path[|path| - |ext|..];
    }
    if EndsWith(name, ext) {
      assert path[|path| - |ext|..] == name[|name| - |ext|..];
    }
  }

  /** The index of the first script resource from `from` on, or -1. */
  function ScriptIndex(resources: seq<string>, from: nat): (r: int)
    requires from <= |resources|
    ensures r == -1 || from <= r < |resources|
    ensures r >= 0 ==> IsScript(resources[r])
    ensures forall j :: from <= j < |resources| && (r < 0 || j < r) ==> !IsScript(resources[j])
    decreases |resources| - from
  {
    if from == |resources| then -1
    else if IsScript(resources[from]) then from
    else ScriptIndex(resources, from + 1)
  }

  /** The environment the parameters add: each non-null value under its key, as its `toString()`. */
  function ParameterEnvironment(parameters: Option<map<string, Option<string>>>): (env: map<string, string>)
    ensures parameters.None? ==> env == map[]
    ensures parameters.Some? ==>
              forall k :: k in env <==> k in parameters.value && parameters.value[k].Some?
    ensures parameters.Some? ==>
              forall k :: k in env ==> env[k] == parameters.value[k].value
  {
    if parameters.None? then map[]
    else map k | k in parameters.value && parameters.value[k].Some? :: parameters.value[k].value
  }

  /** The configured process: command line, working directory, environment, and the file fed on stdin. */
  datatype ProcessSetup = ProcessSetup(command: seq<string>, directory: string, environment: map<string, string>,
                                       stdin: string)

  /** What the started tool does: the lines it prints and its exit code; `None` when it cannot be started. */
  datatype ToolRun = ToolRun(lines: seq<string>, exitCode: int)

  /** The message of the IOException for a failed run. */
  function NonZeroExit(exitCode: int, output: string): string
  {
    "guestfish command returned non-zero exit code " + IntToString(exitCode) + ": " + output
  }

  class GuestfsNodeImageService {
    var guestfishBin: string

    constructor ()
      ensures guestfishBin == DefaultGuestfishBin
    {
      guestfishBin := DefaultGuestfishBin;
    }

    /** `setGuestfishBin(bin)`. */
    method SetGuestfishBin(bin: string)
      modifies this
      ensures guestfishBin == bin
    {
      guestfishBin := bin;
    }

    /**
     * `setupProcess`: the command `guestfish --rw <image name> --inspector`
     * run in the image's directory (a path without a parent fails with a
     * NullPointerException), the inherited environment with the
     * parameters added, and the first `.fish` resource on stdin.
     */
    function SetupProcess(imageFile: string, resources: seq<string>, parameters: Option<map<string, Option<string>>>,
                          inherited: map<string, string>): (r: Result<ProcessSetup>)
      reads this
      ensures ParentOf(imageFile).None? ==> r == Err(NullPointer)
      ensures ParentOf(imageFile).Some? && ScriptIndex(resources, 0) < 0 ==> r == Err(NoScriptResource)
      ensures r.Ok? <==> ParentOf(imageFile).Some? && ScriptIndex(resources, 0) >= 0
      ensures r.Ok? ==>
                r.value.command == [guestfishBin, "--rw", AfterLastSlash(imageFile), "--inspector"] &&
                Some(r.value.directory) == ParentOf(imageFile) &&
                (exists i :: 0 <= i < |resources| && r.value.stdin == resources[i] && IsScript(resources[i]) &&
                   forall j :: 0 <= j < i ==> !IsScript(resources[j])) &&
                r.value.environment.Keys == inherited.Keys + ParameterEnvironment(parameters).Keys &&
                (forall k :: k in ParameterEnvironment(parameters) ==>
                   r.value.environment[k] == ParameterEnvironment(parameters)[k]) &&
                (forall k :: k in inherited && k !in ParameterEnvironment(parameters) ==>
                   r.value.environment[k] == inherited[k])
    {
      var command := [guestfishBin, "--rw", AfterLastSlash(imageFile), "--inspector"];
      var workingDir := ParentOf(imageFile);
      if workingDir.None? then Err(NullPointer)
      else
        var environment := inherited + ParameterEnvironment(parameters);
        var script := ScriptIndex(resources, 0);
        if script < 0 then Err(NoScriptResource)
        else Ok(ProcessSetup(command, workingDir.value, environment, resources[script]))
    }

    /**
     * `createImageInternal`: the process is set up and started, its output
     * captured; a non-zero exit raises an IOException carrying the code
     * and the output, and exit 0 reports success on the same image file
     * with the output as message.
     */
    method CreateImageInternal(imageFile: string, resources: seq<string>, parameters: Option<map<string, Option<string>>>,
                               inherited: map<string, string>, run: Option<ToolRun>)
      returns (r: Result<ImageSetupResult>)
      ensures SetupProcess(imageFile, resources, parameters, inherited).Err? ==>
                r == Err(SetupProcess(imageFile, resources, parameters, inherited).error)
      ensures SetupProcess(imageFile, resources, parameters, inherited).Ok? && run.None? ==> r == Err(StartFailure)
      ensures SetupProcess(imageFile, resources, parameters, inherited).Ok? && run.Some? && run.value.exitCode != 0 ==>
                r == Err(Failure("IOException", Some(NonZeroExit(run.value.exitCode, Captured(run.value.lines)))))
      ensures r.Ok? <==> SetupProcess(imageFile, resources, parameters, inherited).Ok? && run.Some? && run.value.exitCode == 0
      ensures r.Ok? ==> r.value == ImageSetupResult(Some(imageFile), Some(Captured(run.value.lines)), true)
    {
      var setup := SetupProcess(imageFile, resources, parameters, inherited);
      if setup.Err? {
        return Err(setup.error);
      }
      if run.None? {
        return Err(StartFailure);
      }
      var output := CaptureOutput(run.value.lines);
      if run.value.exitCode != 0 {
        return Err(Failure("IOException", Some(NonZeroExit(run.value.exitCode, output))));
      }
      return Ok(ImageSetupResult(Some(imageFile), Some(output), true));
    }
  }
}
