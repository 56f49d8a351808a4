/**
 * The fallback loop of `run_xcresulttool`: three `xcrun xcresulttool`
 * command lines are tried in a fixed order, and the first one that cannot be
 * started, or that exits with status 0 and prints something other than
 * whitespace, decides the answer. Otherwise the answer carries no output,
 * the last non-blank standard error seen and the last command tried.
 *
 * Running a command is outside the model: each candidate's outcome is an
 * input, given in candidate order.
 */
module Invocation {
  import opened Wrappers
  import opened PyText

  /** What running one command gave: it could not be started, or it finished. */
  datatype Outcome =
    | Missing(error: string)
    | Finished(returncode: int, stdout: string, stderr: string)

  /** `(stdout_or_none, stderr_text, command_string)` */
  datatype ToolResult = ToolResult(stdout: Option<string>, stderr: string, command: string)

  const DefaultXcrun := "/usr/bin/xcrun"

  /** `shutil.which("xcrun") or "/usr/bin/xcrun"` */
  function XcrunPath(found: Option<string>): (p: string)
    ensures p != ""
    ensures found.Some? && found.value != "" ==> p == found.value
    ensures found.None? || found.value == "" ==> p == DefaultXcrun
  {
    if found.Some? && found.value != "" then found.value else DefaultXcrun
  }

  /** The candidates, summary first, then the legacy full bundle, then the plain full bundle. */
  function Candidates(xcrun: string, path: string): (cmds: seq<seq<string>>)
    ensures |cmds| == 3 && forall i | 0 <= i < 3 :: |cmds[i]| >= 1 && cmds[i][0] == xcrun
  {
    [ [xcrun, "xcresulttool", "get", "test-results", "summary", "--path", path, "--compact"],
      [xcrun, "xcresulttool", "get", "--legacy", "--path", path, "--format", "json"],
      [xcrun, "xcresulttool", "get", "--path", path, "--format", "json"] ]
  }

  /** `" ".join(cmd)` */
  function CommandLine(cmd: seq<string>): string
    requires |cmd| >= 1
  {
    Join(cmd, ' ')
  }

  predicate WellFormed(cmds: seq<seq<string>>, outcomes: seq<Outcome>) {
    |outcomes| == |cmds| && forall i | 0 <= i < |cmds| :: |cmds[i]| >= 1
  }

  /**
   * A run that counts as a success: status 0 and some non-whitespace output
   * (`strip()` leaves something exactly then, by `StripEmptyIffBlank`).
   */
  predicate Succeeded(o: Outcome) {
    o.Finished? && o.returncode == 0 && !AllSpace(o.stdout)
  }

  /** An outcome that ends the loop. */
  predicate Decisive(o: Outcome) {
    o.Missing? || Succeeded(o)
  }

  /** The answer a decisive outcome gives. */
  function Verdict(cmd: seq<string>, o: Outcome): (r: ToolResult)
    requires |cmd| >= 1 && Decisive(o)
    ensures r.command == CommandLine(cmd)
    ensures r.stdout.Some? <==> o.Finished?
    ensures o.Finished? ==> r.stdout == Some(o.stdout) && r.stderr == o.stderr && !AllSpace(o.stdout)
  {
    match o
    case Missing(error) => ToolResult(None, "Could not execute " + cmd[0] + ": " + error, CommandLine(cmd))
    case Finished(_, stdout, stderr) => ToolResult(Some(stdout), stderr, CommandLine(cmd))
  }

  /**
   * The loop from candidate `i` on, with the standard error and the command
   * line it has kept so far.
   */
  function Attempt(cmds: seq<seq<string>>, outcomes: seq<Outcome>, i: nat, lastStderr: string, lastCmd: string): ToolResult
    requires WellFormed(cmds, outcomes) && i <= |cmds|
    decreases |cmds| - i
  {
    if i == |cmds| then ToolResult(None, lastStderr, lastCmd)
    else if Decisive(outcomes[i]) then Verdict(cmds[i], outcomes[i])
    else
      var o := outcomes[i];
      Attempt(cmds, outcomes, i + 1, if !AllSpace(o.stderr) then o.stderr else lastStderr, CommandLine(cmds[i]))
  }

  /** The last non-blank standard error of the outcomes, "" when there is none. */
  function LastStderr(outcomes: seq<Outcome>): string {
    if outcomes == [] then ""
    else
      var o := outcomes[|outcomes| - 1];
      if o.Finished? && !AllSpace(o.stderr) then o.stderr else LastStderr(outcomes[..|outcomes| - 1])
  }

  lemma {:induction false} AttemptReachesDecisive(cmds: seq<seq<string>>, outcomes: seq<Outcome>, i: nat, k: nat, lastStderr: string, lastCmd: string)
    requires WellFormed(cmds, outcomes) && i <= k < |cmds|
    requires Decisive(outcomes[k]) && forall j | i <= j < k :: !Decisive(outcomes[j])
    ensures Attempt(cmds, outcomes, i, lastStderr, lastCmd) == Verdict(cmds[k], outcomes[k])
    decreases k - i
  {
    if i < k {
      var o := outcomes[i];
      AttemptReachesDecisive(cmds, outcomes, i + 1, k, if !AllSpace(o.stderr) then o.stderr else lastStderr, CommandLine(cmds[i]));
    }
  }

  /**
   * The first candidate that cannot be started or succeeds decides the
   * answer; the outcomes of the candidates after it play no part.
   */
  lemma FirstDecisiveDecides(cmds: seq<seq<string>>, outcomes: seq<Outcome>, k: nat)
    requires WellFormed(cmds, outcomes) && k < |cmds|
    requires Decisive(outcomes[k]) && forall j | 0 <= j < k :: !Decisive(outcomes[j])
    ensures Attempt(cmds, outcomes, 0, "", "") == Verdict(cmds[k], outcomes[k])
  {
    AttemptReachesDecisive(cmds, outcomes, 0, k, "", "");
  }

  lemma {:induction false} AttemptExhausts(cmds: seq<seq<string>>, outcomes: seq<Outcome>, i: nat, lastCmd: string)
    requires WellFormed(cmds, outcomes) && i < |cmds|
    requires forall j | i <= j < |cmds| :: !Decisive(outcomes[j])
    ensures Attempt(cmds, outcomes, i, LastStderr(outcomes[..i]), lastCmd)
      == ToolResult(None, LastStderr(outcomes), CommandLine(cmds[|cmds| - 1]))
    decreases |cmds| - i
  {
    var o := outcomes[i];
    var kept := if !AllSpace(o.stderr) then o.stderr else LastStderr(outcomes[..i]);
    assert outcomes[..i + 1][..i] == outcomes[..i];
    assert LastStderr(outcomes[..i + 1]) == kept;
    if i + 1 < |cmds| {
      AttemptExhausts(cmds, outcomes, i + 1, CommandLine(cmds[i]));
    } else {
      assert outcomes[..i + 1] == outcomes;
    }
  }

  /**
   * When no candidate is decisive, the answer has no output, the last
   * non-blank standard error of all runs and the last command line.
   */
  lemma NoneDecisive(cmds: seq<seq<string>>, outcomes: seq<Outcome>)
    requires WellFormed(cmds, outcomes) && cmds != []
    requires forall j | 0 <= j < |cmds| :: !Decisive(outcomes[j])
    ensures Attempt(cmds, outcomes, 0, "", "") == ToolResult(None, LastStderr(outcomes), CommandLine(cmds[|cmds| - 1]))
  {
    assert outcomes[..0] == [];
    AttemptExhausts(cmds, outcomes, 0, "");
  }

  /** An answer with output comes from a candidate that succeeded, and carries that run's output. */
  lemma {:induction false} OutputMeansSuccess(cmds: seq<seq<string>>, outcomes: seq<Outcome>, i: nat, lastStderr: string, lastCmd: string)
    requires WellFormed(cmds, outcomes) && i <= |cmds|
    ensures var r := Attempt(cmds, outcomes, i, lastStderr, lastCmd);
      r.stdout.Some? ==> exists k | i <= k < |cmds| :: Succeeded(outcomes[k]) && r.stdout == Some(outcomes[k].stdout)
    decreases |cmds| - i
  {
    if i < |cmds| && !Decisive(outcomes[i]) {
      var o := outcomes[i];
      OutputMeansSuccess(cmds, outcomes, i + 1, if !AllSpace(o.stderr) then o.stderr else lastStderr, CommandLine(cmds[i]));
    }
  }

  /**
   * `run_xcresulttool`: tries the candidates in order, keeping the last
   * non-blank standard error and the last command line.
   */
  method RunXcresulttool(found: Option<string>, path: string, outcomes: seq<Outcome>) returns (r: ToolResult)
    requires |outcomes| == 3
    ensures r == Attempt(Candidates(XcrunPath(found), path), outcomes, 0, "", "")
    ensures r.stdout.Some? ==> !AllSpace(r.stdout.value)
  {
    var candidates := Candidates(XcrunPath(found), path);
    var lastStderr := "";
    var lastCmd := "";
    for i := 0 to |candidates|
      invariant Attempt(candidates, outcomes, i, lastStderr, lastCmd) == Attempt(candidates, outcomes, 0, "", "")
    {
      var cmd := candidates[i];
      lastCmd := CommandLine(cmd);
      match outcomes[i] {
        case Missing(error) =>
          return ToolResult(None, "Could not execute " + cmd[0] + ": " + error, lastCmd);
        case Finished(returncode, stdout, stderr) =>
          StripEmptyIffBlank(stdout);
          StripEmptyIffBlank(stderr);
          if returncode == 0 && Strip(stdout) != "" {
            return ToolResult(Some(stdout), stderr, lastCmd);
          }
          if Strip(stderr) != "" {
            lastStderr := stderr;
          }
      }
    }
    return ToolResult(None, lastStderr, lastCmd);
  }

  /** The answer's command line is one of the candidates', from candidate `i` on. */
  lemma {:induction false} AttemptCommand(cmds: seq<seq<string>>, outcomes: seq<Outcome>, i: nat, lastStderr: string, lastCmd: string)
    requires WellFormed(cmds, outcomes) && i < |cmds|
    ensures exists k | i <= k < |cmds| :: Attempt(cmds, outcomes, i, lastStderr, lastCmd).command == CommandLine(cmds[k])
    decreases |cmds| - i
  {
    var r := Attempt(cmds, outcomes, i, lastStderr, lastCmd);
    var o := outcomes[i];
    if Decisive(o) {
      assert r.command == CommandLine(cmds[i]);
      return;
    }
    var kept := if !AllSpace(o.stderr) then o.stderr else lastStderr;
    if i + 1 == |cmds| {
      assert r == Attempt(cmds, outcomes, i + 1, kept, CommandLine(cmds[i]));
      assert r.command == CommandLine(cmds[i]);
    } else {
      AttemptCommand(cmds, outcomes, i + 1, kept, CommandLine(cmds[i]));
    }
  }

  /** A command line of `xcrun xcresulttool get ...` starts with those three words. */
  lemma CommandLinePrefix(cmd: seq<string>)
    requires |cmd| >= 4 && cmd[1] == "xcresulttool" && cmd[2] == "get"
    ensures cmd[0] + " xcresulttool get " <= CommandLine(cmd)
  {
    var rest := Join(cmd[3..], ' ');
    assert cmd[1..][1..] == cmd[2..] && cmd[2..][1..] == cmd[3..];
    assert Join(cmd[2..], ' ') == "get" + " " + rest;
    assert Join(cmd[1..], ' ') == "xcresulttool" + " " + ("get" + " " + rest);
    assert CommandLine(cmd) == cmd[0] + " xcresulttool get " + rest;
  }

  /** When every candidate runs `xcrun xcresulttool get`, so does the command line reported. */
  lemma AttemptNamesXcrun(cmds: seq<seq<string>>, outcomes: seq<Outcome>, xcrun: string)
    requires WellFormed(cmds, outcomes) && cmds != []
    requires forall k | 0 <= k < |cmds| :: |cmds[k]| >= 4 && cmds[k][0] == xcrun && cmds[k][1] == "xcresulttool" && cmds[k][2] == "get"
    ensures xcrun + " xcresulttool get " <= Attempt(cmds, outcomes, 0, "", "").command
  {
    AttemptCommand(cmds, outcomes, 0, "", "");
    var k :| 0 <= k < |cmds| && Attempt(cmds, outcomes, 0, "", "").command == CommandLine(cmds[k]);
    CommandLinePrefix(cmds[k]);
  }

  /**
   * Whichever candidate decides, the command line reported names the xcrun
   * found on the search path, or /usr/bin/xcrun when none was found.
   */
  lemma ReportedXcrun(found: Option<string>, path: string, outcomes: seq<Outcome>)
    requires |outcomes| == 3
    ensures var r := Attempt(Candidates(XcrunPath(found), path), outcomes, 0, "", "");
      && (found.Some? && found.value != "" ==> found.value + " xcresulttool get " <= r.command)
      && (found.None? || found.value == "" ==> DefaultXcrun + " xcresulttool get " <= r.command)
  {
    var xcrun := XcrunPath(found);
    var cmds := Candidates(xcrun, path);
    assert cmds[0][1] == "xcresulttool" && cmds[0][2] == "get";
    assert cmds[1][1] == "xcresulttool" && cmds[1][2] == "get";
    assert cmds[2][1] == "xcresulttool" && cmds[2][2] == "get";
    AttemptNamesXcrun(cmds, outcomes, xcrun);
  }

  /** One more word goes at the end, after a space. */
  lemma {:induction false} CommandLineSnoc(words: seq<string>, w: string)
    requires |words| >= 1
    ensures CommandLine(words + [w]) == CommandLine(words) + " " + w
  {
    var ws := words + [w];
    assert ws[1..] == words[1..] + [w];
    assert [' '] == " ";
    if |words| == 1 {
      assert ws[1..] == [w] && CommandLine(words) == words[0];
      assert Join(ws[1..], ' ') == w;
      assert CommandLine(ws) == ws[0] + [' '] + Join(ws[1..], ' ');
    } else {
      CommandLineSnoc(words[1..], w);
      Assoc(words[0] + " ", CommandLine(words[1..]) + " ", w);
      Assoc(words[0] + " ", CommandLine(words[1..]), " ");
    }
  }

  /** The summary command line, the one tried first: its words separated by single spaces. */
  lemma SummaryCommandLine(xcrun: string, path: string)
    ensures CommandLine(Candidates(xcrun, path)[0]) == xcrun + " " + "xcresulttool" + " " + "get" + " " + "test-results"
      + " " + "summary" + " " + "--path" + " " + path + " " + "--compact"
  {
    var cmd := Candidates(xcrun, path)[0];
    assert cmd[..1] == [xcrun];
    assert cmd[..2] == cmd[..1] + [cmd[1]];
    CommandLineSnoc(cmd[..1], cmd[1]);
    assert cmd[..3] == cmd[..2] + [cmd[2]];
    CommandLineSnoc(cmd[..2], cmd[2]);
    assert cmd[..4] == cmd[..3] + [cmd[3]];
    CommandLineSnoc(cmd[..3], cmd[3]);
    assert cmd[..5] == cmd[..4] + [cmd[4]];
    CommandLineSnoc(cmd[..4], cmd[4]);
    assert cmd[..6] == cmd[..5] + [cmd[5]];
    CommandLineSnoc(cmd[..5], cmd[5]);
    assert cmd[..7] == cmd[..6] + [cmd[6]];
    CommandLineSnoc(cmd[..6], cmd[6]);
    assert cmd[..8] == cmd[..7] + [cmd[7]];
    CommandLineSnoc(cmd[..7], cmd[7]);
    assert cmd[..8] == cmd;
  }

  /** When the summary command succeeds, its output is the answer and the fallbacks are not consulted. */
  lemma SummaryPreferred(found: Option<string>, path: string, outcomes: seq<Outcome>)
    requires |outcomes| == 3 && Succeeded(outcomes[0])
    ensures var r := Attempt(Candidates(XcrunPath(found), path), outcomes, 0, "", "");
      && r.stdout == Some(outcomes[0].stdout)
      && r.command == XcrunPath(found) + " " + "xcresulttool" + " " + "get" + " " + "test-results"
        + " " + "summary" + " " + "--path" + " " + path + " " + "--compact"
  {
    SummaryCommandLine(XcrunPath(found), path);
  }
}
