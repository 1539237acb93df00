/** The fail-stop execution of one agent proposal. */
module AgentRun {
  import opened Wrappers
  import opened Text
  import opened Sequences
  import opened ArtifactPaths
  import opened Claims
  import opened DiffPaths
  import DiffPrinter
  import DiffReading

  datatype Purpose = Inspect | Implement | Validate

  datatype Command = Command(text: string, purpose: Purpose, workingDirectory: Option<RawPath>)

  datatype Patch = Patch(path: RawPath, diff: string)

  /** One action, and who asked for it. */
  datatype Step = PatchStep(patch: Patch) | ProviderStep(command: Command) | CallerStep(command: Command)

  datatype ProviderCommands = Enabled | Disabled

  /** How a child process ended, or why it never ran. */
  datatype Process =
    | NotRun(why: string)
    | Ran(exitOk: bool, code: Option<int>, timedOut: bool, processError: Option<string>, stdinOk: bool, evidence: bool)

  /** What running a step does, given everything attempted before it. */
  type World = (seq<Step>, Step) -> Process

  datatype Report = Report(step: Step, success: bool, error: Option<string>, launched: bool)

  // ----- One step -----

  function Refused(step: Step, why: string): Report {
    Report(step, false, Some(why), false)
  }

  function ExitError(code: Option<int>): string {
    if code.Some? then "exited with a status" else "terminated without an exit code"
  }

  function PatchReport(step: Step, process: Process): Report {
    match process
    case NotRun(why) => Report(step, false, Some("failed to apply provider patch: " + why), true)
    case Ran(ok, code, _, _, _, _) => Report(step, ok, if ok then None else Some(ExitError(code)), true)
  }

  function CommandReport(step: Step, process: Process): Report {
    match process
    case NotRun(why) => Report(step, false, Some("failed to run command: " + why), true)
    case Ran(exitOk, code, timedOut, processError, stdinOk, evidence) =>
      var ok := exitOk && !timedOut && processError.None? && stdinOk && evidence;
      var error :=
        if ok then None
        else if processError.Some? then processError
        else if !evidence then Some("command safety evidence was not verified")
        else if timedOut then Some("command timed out")
        else Some(ExitError(code));
      Report(step, ok, error, true)
  }

  function WorkingDirectory(cwd: Option<RawPath>): Result<Option<Path>, ClaimError> {
    if cwd.None? || cwd.value == [CurDir] then Ok(None)
    else match Normalize(cwd.value) case Ok(p) => Ok(Some(p)) case Err(e) => Err(e)
  }

  /** The patch's own path is claimed, and its diff names that path and nothing outside the claims. */
  ghost predicate PatchAllowed(patch: Patch, claims: seq<Path>) {
    && Normalize(patch.path).Ok? && Covered(claims, Normalize(patch.path).value)
    && Trim(patch.diff) != "" && PatchOk(Normalize(patch.path).value, patch.diff, claims)
  }

  ghost predicate Allowed(step: Step, claims: seq<Path>) {
    match step
    case PatchStep(patch) => PatchAllowed(patch, claims)
    case ProviderStep(command) => WorkingDirectory(command.workingDirectory).Ok?
    case CallerStep(command) => WorkingDirectory(command.workingDirectory).Ok?
  }

  /** A step's report against the world: refused before launch, or what its process did. */
  ghost predicate ReportsStep(world: World, claims: seq<Path>, history: seq<Step>, step: Step, r: Report) {
    && r.step == step && r.launched == Allowed(step, claims)
    && (!r.launched ==> !r.success && r.error.Some?)
    && (r.launched ==>
          r == if step.PatchStep? then PatchReport(step, world(history, step))
               else CommandReport(step, world(history, step)))
  }

  /** Every failed report carries an error, and no successful one does. */
  lemma {:induction false} FailureCarriesError(world: World, claims: seq<Path>, history: seq<Step>, step: Step,
      r: Report)
    requires ReportsStep(world, claims, history, step, r)
    ensures r.success <==> r.error.None?
  {
  }

  method ApplyPatch(world: World, claims: seq<Path>, history: seq<Step>, step: Step) returns (r: Report)
    requires step.PatchStep?
    ensures ReportsStep(world, claims, history, step, r)
  {
    var patch := step.patch;
    var path := NormalizeLoop(patch.path);
    if path.Err? { return Refused(step, "invalid patch path"); }
    if !Covered(claims, path.value) { return Refused(step, "provider patch path is outside claimed paths"); }
    if Trim(patch.diff) == "" { return Refused(step, "provider patch is empty"); }
    var validated := ValidatePatch(path.value, patch.diff, claims);
    if validated.Err? { return Refused(step, "provider patch diff paths are not acceptable"); }
    return PatchReport(step, world(history, step));
  }

  method RunCommand(world: World, claims: seq<Path>, history: seq<Step>, step: Step) returns (r: Report)
    requires !step.PatchStep?
    ensures ReportsStep(world, claims, history, step, r)
  {
    if WorkingDirectory(step.command.workingDirectory).Err? { return Refused(step, "invalid working directory"); }
    return CommandReport(step, world(history, step));
  }

  // ----- Stages -----

  /** Whether a report is a possible report of a step after a history. */
  type Relation = (seq<Step>, Step, Report) -> bool

  ghost function ReportsIn(world: World, claims: seq<Path>): Relation {
    (history: seq<Step>, step: Step, r: Report) => ReportsStep(world, claims, history, step, r)
  }

  /** Reports of consecutive steps, ending with the last step or the first failure. */
  ghost predicate FailStop(rel: Relation, history: seq<Step>, steps: seq<Step>, reports: seq<Report>) {
    && |reports| <= |steps|
    && (forall i | 0 <= i < |reports| :: rel(history + steps[..i], steps[i], reports[i]))
    && (forall i | 0 <= i < |reports| - 1 :: reports[i].success)
    && (|reports| < |steps| ==> reports != [] && !reports[|reports| - 1].success)
  }

  ghost predicate AllPassed(reports: seq<Report>) {
    forall i | 0 <= i < |reports| :: reports[i].success
  }

  method Attempt(world: World, claims: seq<Path>, history: seq<Step>, step: Step) returns (r: Report)
    ensures ReportsIn(world, claims)(history, step, r)
    ensures r.step == step && (r.success <==> r.error.None?)
  {
    if step.PatchStep? {
      r := ApplyPatch(world, claims, history, step);
    } else {
      r := RunCommand(world, claims, history, step);
    }
    FailureCarriesError(world, claims, history, step, r);
  }

  /** One stage's loop: stop after the first report that sets the execution error. */
  method RunStage(world: World, claims: seq<Path>, history: seq<Step>, steps: seq<Step>)
    returns (reports: seq<Report>, error: Option<string>)
    ensures FailStop(ReportsIn(world, claims), history, steps, reports)
    ensures forall i | 0 <= i < |reports| :: reports[i].step == steps[i]
    ensures error.None? <==> AllPassed(reports)
    ensures error.None? ==> |reports| == |steps|
  {
    ghost var rel := ReportsIn(world, claims);
    reports, error := [], None;
    for n := 0 to |steps|
      invariant |reports| == n && error.None? && AllPassed(reports)
      invariant forall i | 0 <= i < n :: reports[i].step == steps[i]
      invariant forall i | 0 <= i < n :: rel(history + steps[..i], steps[i], reports[i])
    {
      var r := Attempt(world, claims, history + steps[..n], steps[n]);
      if !r.success && error.None? { error := r.error; }
      reports := reports + [r];
      if error.Some? { return; }
    }
  }

  /** A stage that passed followed by another is one longer stage. */
  lemma {:induction false} StagesJoin(rel: Relation, history: seq<Step>, a: seq<Step>, ra: seq<Report>, b: seq<Step>,
      rb: seq<Report>)
    requires FailStop(rel, history, a, ra) && |ra| == |a| && AllPassed(ra)
    requires FailStop(rel, history + a, b, rb)
    ensures FailStop(rel, history, a + b, ra + rb)
  {
    var steps, reports := a + b, ra + rb;
    forall i | 0 <= i < |reports| ensures rel(history + steps[..i], steps[i], reports[i]) {
      if i < |ra| {
        assert steps[..i] == a[..i];
      } else {
        assert history + steps[..i] == (history + a) + b[..i - |a|];
      }
    }
  }

  /** A stage that failed ends the run, whatever was planned after it. */
  lemma {:induction false} StageEnds(rel: Relation, history: seq<Step>, a: seq<Step>, ra: seq<Report>, b: seq<Step>)
    requires FailStop(rel, history, a, ra) && !AllPassed(ra)
    ensures FailStop(rel, history, a + b, ra)
  {
    var steps := a + b;
    var k :| 0 <= k < |ra| && !ra[k].success;
    assert k == |ra| - 1;
    forall i | 0 <= i < |ra| ensures rel(history + steps[..i], steps[i], ra[i]) {
      assert steps[..i] == a[..i];
    }
  }

  // ----- The whole run -----

  datatype Proposal = Proposal(patches: seq<Patch>, commands: seq<Command>)

  function PatchSteps(patches: seq<Patch>): seq<Step> {
    seq(|patches|, i requires 0 <= i < |patches| => PatchStep(patches[i]))
  }

  function ProviderSteps(commands: seq<Command>): seq<Step> {
    seq(|commands|, i requires 0 <= i < |commands| => ProviderStep(commands[i]))
  }

  function CallerSteps(commands: seq<Command>): seq<Step> {
    seq(|commands|, i requires 0 <= i < |commands| => CallerStep(commands[i]))
  }

  function Validates(): Command -> bool {
    (c: Command) => c.purpose.Validate?
  }

  function Changes(): Command -> bool {
    (c: Command) => !c.purpose.Validate?
  }

  predicate CommandsBlocked(policy: ProviderCommands, p: Proposal) {
    policy.Disabled? && p.commands != []
  }

  function ChangeSteps(p: Proposal): seq<Step> {
    ProviderSteps(Filter(p.commands, Changes()))
  }

  function CheckSteps(p: Proposal): seq<Step> {
    ProviderSteps(Filter(p.commands, Validates()))
  }

  /** Everything a run sets out to do, in order. Blocked commands end it after the patches. */
  function Plan(policy: ProviderCommands, p: Proposal, validations: seq<Command>): seq<Step> {
    if CommandsBlocked(policy, p) then PatchSteps(p.patches)
    else PatchSteps(p.patches) + (ChangeSteps(p) + (CheckSteps(p) + CallerSteps(validations)))
  }

  datatype Check = Check(name: string, passed: bool, message: Option<string>)

  function CheckOf(r: Report): Check
    requires !r.step.PatchStep?
  {
    Check(r.step.command.text, r.success, r.error)
  }

  datatype RunReport = RunReport(
    patches: seq<Report>, commands: seq<Report>, validations: seq<Report>, checks: seq<Check>, success: bool,
      error: Option<string>)

  /** Not run at all, but reported as failed. */
  function DisabledReports(commands: seq<Command>): seq<Report> {
    seq(|commands|, i requires 0 <= i < |commands| => Refused(ProviderStep(commands[i]),
      "provider-proposed shell commands are disabled"))
  }

  /** What was attempted: disabled commands are reported without being attempted. */
  function Attempted(policy: ProviderCommands, p: Proposal, r: RunReport): seq<Report> {
    if CommandsBlocked(policy, p) then r.patches else r.patches + (r.commands + r.validations)
  }

  ghost predicate ChecksMirror(r: RunReport) {
    && |r.checks| == |r.validations|
    && forall i | 0 <= i < |r.validations| ::
      !r.validations[i].step.PatchStep? && r.checks[i] == CheckOf(r.validations[i])
  }

  /** The execution stages and the error they leave. */
  datatype Stages = Stages(patches: seq<Report>, commands: seq<Report>, validations: seq<Report>, error: Option<string>)

  method RunStages(world: World, claims: seq<Path>, policy: ProviderCommands, p: Proposal, validations: seq<Command>)
    returns (s: Stages)
    ensures var all := if CommandsBlocked(policy, p) then s.patches else s.patches + (s.commands + s.validations);
      && FailStop(ReportsIn(world, claims), [], Plan(policy, p, validations), all)
      && (s.error.None? <==> !CommandsBlocked(policy, p) && AllPassed(all) && |all| == |Plan(policy, p, validations)|)
    ensures CommandsBlocked(policy, p) ==> s.validations == []
    ensures CommandsBlocked(policy, p) ==>
            s.commands == if AllPassed(s.patches) then DisabledReports(p.commands) else []
    ensures forall i | 0 <= i < |s.validations| :: !s.validations[i].step.PatchStep?
    ensures s.error.None? ==> AllPassed(s.validations)
  {
    var first := PatchSteps(p.patches);
    var patches, error := RunStage(world, claims, [], first);
    if CommandsBlocked(policy, p) {
      return Stages(patches, if error.None? then DisabledReports(p.commands) else [], [],
                    if error.None? then Some("provider-proposed shell commands are disabled") else error);
    }
    var later := ChangeSteps(p) + (CheckSteps(p) + CallerSteps(validations));
    if error.Some? {
      StageEnds(ReportsIn(world, claims), [], first, patches, later);
      assert patches + ([] + []) == patches;
      return Stages(patches, [], [], error);
    }
    var commands, checks, failed := RunCommandStages(world, claims, [] + first, p, validations);
    StagesJoin(ReportsIn(world, claims), [], first, patches, later, commands + checks);
    AllPassedJoins(patches, commands + checks);
    AllPassedJoins(commands, checks);
    return Stages(patches, commands, checks, failed);
  }

  lemma {:induction false} AllPassedJoins(a: seq<Report>, b: seq<Report>)
    ensures AllPassed(a + b) <==> AllPassed(a) && AllPassed(b)
  {
    if AllPassed(a + b) {
      forall i | 0 <= i < |a| ensures a[i].success { assert (a + b)[i] == a[i]; }
      forall i | 0 <= i < |b| ensures b[i].success { assert (a + b)[|a| + i] == b[i]; }
    }
  }

  /** The provider's changing commands, then its validations, then the caller's. */
  method RunCommandStages(world: World, claims: seq<Path>, history: seq<Step>, p: Proposal, validations: seq<Command>)
    returns (commands: seq<Report>, checks: seq<Report>, error: Option<string>)
    ensures var later := ChangeSteps(p) + (CheckSteps(p) + CallerSteps(validations));
      && FailStop(ReportsIn(world, claims), history, later, commands + checks)
      && (error.None? <==> AllPassed(commands + checks) && |commands + checks| == |later|)
    ensures forall i | 0 <= i < |checks| :: !checks[i].step.PatchStep?
  {
    var change, check := ChangeSteps(p), CheckSteps(p) + CallerSteps(validations);
    checks := [];
    commands, error := RunStage(world, claims, history, change);
    if error.Some? {
      StageEnds(ReportsIn(world, claims), history, change, commands, check);
      assert commands + checks == commands;
      return;
    }
    checks, error := RunCheckStages(world, claims, history + change, p, validations);
    StagesJoin(ReportsIn(world, claims), history, change, commands, check, checks);
    AllPassedJoins(commands, checks);
  }

  method RunCheckStages(world: World, claims: seq<Path>, history: seq<Step>, p: Proposal, validations: seq<Command>)
    returns (checks: seq<Report>, error: Option<string>)
    ensures FailStop(ReportsIn(world, claims), history, CheckSteps(p) + CallerSteps(validations), checks)
    ensures error.None? <==> AllPassed(checks) && |checks| == |CheckSteps(p) + CallerSteps(validations)|
    ensures forall i | 0 <= i < |checks| :: !checks[i].step.PatchStep?
  {
    var own, callers := CheckSteps(p), CallerSteps(validations);
    checks, error := RunStage(world, claims, history, own);
    if error.Some? {
      StageEnds(ReportsIn(world, claims), history, own, checks, callers);
      return;
    }
    var rest;
    rest, error := RunStage(world, claims, history + own, callers);
    StagesJoin(ReportsIn(world, claims), history, own, checks, callers, rest);
    AllPassedJoins(checks, rest);
    checks := checks + rest;
  }

  method ReportChecks(validations: seq<Report>) returns (checks: seq<Check>, failed: bool)
    requires forall i | 0 <= i < |validations| :: !validations[i].step.PatchStep?
    ensures |checks| == |validations| && forall i | 0 <= i < |validations| :: checks[i] == CheckOf(validations[i])
    ensures failed <==> !AllPassed(validations)
  {
    checks, failed := [], false;
    for n := 0 to |validations|
      invariant |checks| == n && forall i | 0 <= i < n :: checks[i] == CheckOf(validations[i])
      invariant failed <==> !AllPassed(validations[..n])
    {
      assert validations[..n + 1] == validations[..n] + [validations[n]];
      AllPassedJoins(validations[..n], [validations[n]]);
      checks := checks + [CheckOf(validations[n])];
      if !validations[n].success { failed := true; }
    }
    assert validations[..|validations|] == validations;
  }

  /**
   * The run. It fails stop: what was attempted is a prefix of the plan in which only the last
   * step may have failed. It succeeds iff the whole plan ran and passed, no provider command was
   * blocked and nothing outside the claims changed.
   */
  method Run(world: World, claims: seq<Path>, policy: ProviderCommands, p: Proposal, validations: seq<Command>,
      outside: seq<Path>)
    returns (r: RunReport)
    ensures FailStop(ReportsIn(world, claims), [], Plan(policy, p, validations), Attempted(policy, p, r))
    ensures r.success <==>
              && !CommandsBlocked(policy, p) && outside == []
              && AllPassed(Attempted(policy, p, r)) && |Attempted(policy, p, r)| == |Plan(policy, p, validations)|
    ensures r.success <==> r.error.None?
    ensures CommandsBlocked(policy, p) ==>
            r.validations == [] && forall i | 0 <= i < |r.commands| :: !r.commands[i].launched
    ensures ChecksMirror(r)
  {
    var s := RunStages(world, claims, policy, p, validations);
    var checks, validationFailed := ReportChecks(s.validations);
    var boundaryError := if outside == [] then None else Some("agent changed paths outside its claims");
    var success := s.error.None? && boundaryError.None? && !validationFailed;
    var error := if s.error.Some? then s.error else boundaryError;
    return RunReport(s.patches, s.commands, s.validations, checks, success, error);
  }

  /** The scan of a patch whose process was launched finds only claimed paths. */
  lemma {:induction false} LaunchedPatchesAreClaimed(world: World, claims: seq<Path>, steps: seq<Step>,
      reports: seq<Report>, i: nat)
    requires FailStop(ReportsIn(world, claims), [], steps, reports) && i < |reports| && reports[i].launched
    requires steps[i].PatchStep?
    ensures forall q | q in Scan(Lines(steps[i].patch.diff), false).value :: Covered(claims, q)
    ensures Scan(Lines(steps[i].patch.diff), false).Ok?
  {
    assert ReportsIn(world, claims)([] + steps[..i], steps[i], reports[i]);
  }

  /**
   All that the scan reads of a printed patch that was launched is claimed. All that the
   patch names is claimed exactly when what the scan overlooks in it is.
   */
  lemma {:induction false} LaunchedDiffsAreClaimedIff(
    world: World, claims: seq<Path>, steps: seq<Step>, reports: seq<Report>, i: nat, items: seq<DiffPrinter.Item>)
    requires FailStop(ReportsIn(world, claims), [], steps, reports) && i < |reports| && reports[i].launched
    requires steps[i].PatchStep?
    requires DiffPrinter.ValidDiff(items) && steps[i].patch.diff == DiffPrinter.Print(items)
    ensures forall p | DiffPrinter.ReadIn(items, p) :: Covered(claims, p)
    ensures (forall p | DiffPrinter.NamedIn(items, p) :: Covered(claims, p)) <==>
            forall j: nat, m | DiffPrinter.Mentioned(items, j, m) && DiffPrinter.Overlooked(m) ::
              Covered(claims, m.path)
  {
    LaunchedPatchesAreClaimed(world, claims, steps, reports, i);
    DiffPrinter.DiffRoundTrip(items);
    forall j: nat, m | DiffPrinter.Mentioned(items, j, m)
      ensures DiffPrinter.NamedIn(items, m.path)
      ensures DiffPrinter.Overlooked(m) || Covered(claims, m.path)
    {
      if !DiffPrinter.Overlooked(m) { assert DiffPrinter.ReadIn(items, m.path); }
    }
  }

  /** The same of the text of a patch, whatever its items are. */
  lemma {:induction false} LaunchedTextIsClaimedIff(world: World, claims: seq<Path>, steps: seq<Step>,
      reports: seq<Report>, i: nat)
    requires FailStop(ReportsIn(world, claims), [], steps, reports) && i < |reports| && reports[i].launched
    requires steps[i].PatchStep?
    ensures var text := steps[i].patch.diff;
      (forall p | DiffReading.Names(text, p) :: Covered(claims, p)) <==>
      forall items, j: nat, m |
        DiffReading.Reading(text, items) && DiffPrinter.Mentioned(items, j, m) && DiffPrinter.Overlooked(m) ::
          Covered(claims, m.path)
  {
    var text := steps[i].patch.diff;
    forall items | DiffReading.Reading(text, items)
      ensures (forall p | DiffPrinter.NamedIn(items, p) :: Covered(claims, p)) <==>
              forall j: nat, m | DiffPrinter.Mentioned(items, j, m) && DiffPrinter.Overlooked(m) ::
                Covered(claims, m.path)
    {
      LaunchedDiffsAreClaimedIff(world, claims, steps, reports, i, items);
    }
  }

  /** Only the last attempt of a run can fail, and if anything failed nothing later was attempted. */
  lemma {:induction false} FailureIsLast(world: World, claims: seq<Path>, steps: seq<Step>, reports: seq<Report>,
      i: nat)
    requires FailStop(ReportsIn(world, claims), [], steps, reports) && i < |reports| && !reports[i].success
    ensures i == |reports| - 1 && reports[i].error.Some?
  {
    assert ReportsIn(world, claims)([] + steps[..i], steps[i], reports[i]);
    FailureCarriesError(world, claims, [] + steps[..i], steps[i], reports[i]);
  }
}
