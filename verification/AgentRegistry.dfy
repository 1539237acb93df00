/** The durable registry of launched agent processes. */
module AgentRegistry {
  import opened Wrappers
  import opened Ordering
  import opened Sequences
  import opened Text
  import opened IncarnationToken
  import opened ProcessTable
  import opened StopProtocol

  const MAX_REGISTRY_RECORDS := 4096
  const MAX_STOP_WAIT_MS := 60_000

  datatype Record = Record(pid: nat, startTime: string, runId: string, taskId: string, launchMs: nat)

  datatype RegistryError = Invalid | Full | Uncertain | NotWritten | NoMatch | Ambiguous | WaitTooLong | Incomplete

  /** How the atomic registry write ended: both lost outcomes are reported as errors. */
  datatype Commit = Committed | Lost | Unconfirmed

  predicate Applied(c: Commit) { !c.Lost? }

  predicate ValidText(s: string) {
    0 < |s| <= MAX_IDENTIFIER_BYTES && forall i | 0 <= i < |s| :: !(s[i] as int < 32 || s[i] as int == 127)
  }

  predicate ValidRecord(r: Record) {
    r.pid != 0 && ValidText(r.startTime) && ValidText(r.runId) && ValidText(r.taskId)
  }

  predicate SameIdentity(a: Record, b: Record) { a.pid == b.pid && a.startTime == b.startTime }

  predicate Apart(a: Record, b: Record) { !SameIdentity(a, b) }

  /** A loadable registry: bounded, valid records, no PID/start-time identity listed twice. */
  ghost predicate ValidState(ps: seq<Record>) {
    |ps| <= MAX_REGISTRY_RECORDS && Pairwise(ps, Apart) && forall x | x in ps :: ValidRecord(x)
  }

  /** The validation loop accepts exactly the valid states. */
  method Validate(ps: seq<Record>) returns (ok: bool)
    ensures ok <==> ValidState(ps)
  {
    if |ps| > MAX_REGISTRY_RECORDS { return false; }
    var seen: set<(nat, string)> := {};
    for n := 0 to |ps|
      invariant seen == set i | 0 <= i < n :: (ps[i].pid, ps[i].startTime)
      invariant forall i | 0 <= i < n :: ValidRecord(ps[i])
      invariant Pairwise(ps[..n], Apart)
    {
      if !ValidRecord(ps[n]) { return false; }
      if (ps[n].pid, ps[n].startTime) in seen {
        ghost var i :| 0 <= i < n && (ps[i].pid, ps[i].startTime) == (ps[n].pid, ps[n].startTime);
        assert !Apart(ps[i], ps[n]);
        return false;
      }
      assert forall i | 0 <= i < n :: Apart(ps[i], ps[n]) by {
        assert forall i | 0 <= i < n :: (ps[i].pid, ps[i].startTime) in seen;
      }
      seen := seen + {(ps[n].pid, ps[n].startTime)};
    }
    assert ps[..|ps|] == ps;
    return true;
  }

  predicate RecordLe(a: Record, b: Record) {
    a.launchMs < b.launchMs
    || (a.launchMs == b.launchMs && (a.pid < b.pid || (a.pid == b.pid && TextLe(a.startTime, b.startTime))))
  }

  lemma {:induction false} RecordLeOrders()
    ensures TotalPreorder(RecordLe)
  {
    forall a: Record, b: Record ensures RecordLe(a, b) || RecordLe(b, a) {
      TextLeTotal(a.startTime, b.startTime);
    }
    forall a: Record, b: Record, c: Record | RecordLe(a, b) && RecordLe(b, c) ensures RecordLe(a, c) {
      if a.launchMs == b.launchMs == c.launchMs && a.pid == b.pid == c.pid {
        TextLeTransitive(a.startTime, b.startTime, c.startTime);
      }
    }
  }

  /** Registration replaces whatever record the PID had and keeps the list ordered by launch. */
  function RegisterState(ps: seq<Record>, record: Record): Result<seq<Record>, RegistryError> {
    var kept := Filter(ps, (x: Record) => x.pid != record.pid);
    if |kept| >= MAX_REGISTRY_RECORDS then Err(Full) else Ok(Sort(kept + [record], RecordLe))
  }

  /** Listing keeps the live records; one uncertain verdict spoils the whole pass. */
  function PruneState(ps: seq<Record>, verdicts: seq<Option<Verdict>>): Result<seq<Record>, RegistryError>
    requires |verdicts| >= |ps|
  {
    if ps == [] then Ok([])
    else
      var n := |ps| - 1;
      var before := PruneState(ps[..n], verdicts);
      if before.Err? then before
      else if verdicts[n].None? then Err(Uncertain)
      else if verdicts[n].value.Live? then Ok(before.value + [ps[n]]) else before
  }

  function RemoveState(ps: seq<Record>, pid: nat, startTime: string): seq<Record> {
    Filter(ps, (x: Record) => !(x.pid == pid && x.startTime == startTime))
  }

  function Updated(ps: seq<Record>, outcome: Result<seq<Record>, RegistryError>, commit: Commit): seq<Record> {
    if outcome.Ok? && Applied(commit) then outcome.value else ps
  }

  /** Exactly the records of other PIDs survive a registration, next to the new record. */
  lemma {:induction false} RegisterKeepsOthers(ps: seq<Record>, record: Record)
    requires ValidState(ps) && ValidRecord(record) && RegisterState(ps, record).Ok?
    ensures var after := RegisterState(ps, record).value;
      && ValidState(after) && Pairwise(after, RecordLe)
      && forall x :: x in after <==> x == record || (x in ps && x.pid != record.pid)
  {
    var others := (x: Record) => x.pid != record.pid;
    var kept := Filter(ps, others);
    var all := kept + [record];
    assert forall x :: x in all <==> x == record || x in kept;
    SortMembers(all, RecordLe);
    RecordLeOrders();
    SortSorted(all, RecordLe);
    FilterPairwise(ps, others, Apart);
    PairwiseSnoc(kept, record, Apart);
    SortPairwise(all, RecordLe, Apart);
  }

  ghost predicate LiveAt(ps: seq<Record>, verdicts: seq<Option<Verdict>>, x: Record, i: int) {
    0 <= i < |ps| <= |verdicts| && ps[i] == x && verdicts[i] == Some(Live)
  }

  /** A pass succeeds when no verdict is uncertain, and then keeps exactly the live records. */
  lemma {:induction false} PruneKeepsLive(ps: seq<Record>, verdicts: seq<Option<Verdict>>)
    requires |verdicts| >= |ps|
    ensures PruneState(ps, verdicts).Ok? <==> forall i | 0 <= i < |ps| :: verdicts[i].Some?
    ensures PruneState(ps, verdicts).Ok? ==>
              var kept := PruneState(ps, verdicts).value;
              && |kept| <= |ps| && (forall x | x in kept :: x in ps)
              && (forall x | x in kept :: exists i :: LiveAt(ps, verdicts, x, i))
              && (forall x, i | LiveAt(ps, verdicts, x, i) :: x in kept)
  {
    if ps != [] {
      var n := |ps| - 1;
      PruneKeepsLive(ps[..n], verdicts);
      if PruneState(ps, verdicts).Ok? {
        var before := PruneState(ps[..n], verdicts).value;
        var kept := PruneState(ps, verdicts).value;
        forall x | x in kept ensures exists i :: LiveAt(ps, verdicts, x, i) {
          if x in before {
            var i :| LiveAt(ps[..n], verdicts, x, i);
            assert LiveAt(ps, verdicts, x, i);
          } else {
            assert LiveAt(ps, verdicts, x, n);
          }
        }
        forall x, i | LiveAt(ps, verdicts, x, i) ensures x in kept {
          if i < n { assert LiveAt(ps[..n], verdicts, x, i); }
        }
      }
    }
  }

  lemma {:induction false} PruneValid(ps: seq<Record>, verdicts: seq<Option<Verdict>>)
    requires |verdicts| >= |ps| && ValidState(ps) && PruneState(ps, verdicts).Ok?
    ensures ValidState(PruneState(ps, verdicts).value)
  {
    PruneKeepsLive(ps, verdicts);
    if ps != [] {
      var n := |ps| - 1;
      PruneValid(ps[..n], verdicts);
      PruneKeepsLive(ps[..n], verdicts);
      PairwiseSnoc(PruneState(ps[..n], verdicts).value, ps[n], Apart);
    }
  }

  lemma {:induction false} RemoveValid(ps: seq<Record>, pid: nat, startTime: string)
    requires ValidState(ps)
    ensures ValidState(RemoveState(ps, pid, startTime))
  {
    FilterPairwise(ps, (x: Record) => !(x.pid == pid && x.startTime == startTime), Apart);
  }

  datatype Request = Selector(text: string) | Run(runId: string) | Assignment(runId: string, taskId: string)

  predicate Matches(req: Request, p: Record) {
    match req
    case Selector(text) => Decimal(p.pid) == text || p.runId == text || p.taskId == text
    case Run(runId) => p.runId == runId
    case Assignment(runId, taskId) => p.runId == runId && p.taskId == taskId
  }

  predicate ValidRequest(req: Request) {
    match req
    case Selector(text) => ValidText(text)
    case Run(runId) => ValidText(runId)
    case Assignment(runId, taskId) => ValidText(runId) && ValidText(taskId)
  }

  /** A selector or an assignment must name one live process; a run may name many. */
  predicate Exclusive(req: Request) { !req.Run? }

  predicate MayBeLive(v: Option<Verdict>) { v.None? || v.value.Live? }

  datatype StopEntry = StopEntry(process: Record, outcome: StopOutcome)

  datatype FailureReason = Termination | RegistryUpdate

  datatype StopFailure = StopFailure(process: Record, reason: FailureReason, outcome: Option<StopOutcome>)

  datatype StopReport = StopReport(stopped: seq<StopEntry>, failures: seq<StopFailure>)

  /** What the environment answers while one matched record is being stopped. */
  datatype StopAnswer = StopAnswer(outcome: Option<StopOutcome>, commit: Commit)

  /** The registry after stopping the first `n` matches. */
  function StopEffect(ps: seq<Record>, matches: seq<Record>, answers: seq<StopAnswer>, n: nat): seq<Record>
    requires n <= |matches| <= |answers|
  {
    if n == 0 then ps
    else
      var before := StopEffect(ps, matches, answers, n - 1);
      var a := answers[n - 1];
      if a.outcome.Some? && Applied(a.commit) then RemoveState(before, matches[n - 1].pid, matches[n - 1].startTime)
      else before
  }

  predicate Removes(a: StopAnswer) { a.outcome.Some? && Applied(a.commit) }

  /** A record is gone after a stop exactly when some match with its identity was stopped and removed. */
  lemma {:induction false} StopRemovesStopped(ps: seq<Record>, matches: seq<Record>, answers: seq<StopAnswer>, n: nat,
      x: Record)
    requires n <= |matches| <= |answers|
    ensures x in StopEffect(ps, matches, answers, n) <==>
            x in ps && forall i | 0 <= i < n :: SameIdentity(matches[i], x) ==> !Removes(answers[i])
  {
    if n > 0 {
      StopRemovesStopped(ps, matches, answers, n - 1, x);
    }
  }

  /** The report after the first `n` matches. */
  function ReportOf(matches: seq<Record>, answers: seq<StopAnswer>, n: nat): StopReport
    requires n <= |matches| <= |answers|
  {
    if n == 0 then StopReport([], [])
    else
      var before := ReportOf(matches, answers, n - 1);
      var p, a := matches[n - 1], answers[n - 1];
      if a.outcome.None? then before.(failures := before.failures + [StopFailure(p, Termination, None)])
      else if a.commit.Committed? then before.(stopped := before.stopped + [StopEntry(p, a.outcome.value)])
      else before.(failures := before.failures + [StopFailure(p, RegistryUpdate, a.outcome)])
  }

  /** Every match is accounted for once: stopped and removed, or failed with the reason. */
  lemma {:induction false} ReportAccountsForAll(matches: seq<Record>, answers: seq<StopAnswer>, n: nat)
    requires n <= |matches| <= |answers|
    ensures var r := ReportOf(matches, answers, n);
      && |r.stopped| + |r.failures| == n
      && forall i | 0 <= i < n ::
           var a := answers[i];
           if a.outcome.Some? && a.commit.Committed? then StopEntry(matches[i], a.outcome.value) in r.stopped
           else StopFailure(matches[i], if a.outcome.None? then Termination else RegistryUpdate, a.outcome)
                  in r.failures
  {
    if n > 0 {
      ReportAccountsForAll(matches, answers, n - 1);
    }
  }

  class Registry {
    /** The records of the registry file. */
    var processes: seq<Record>

    ghost predicate Valid()
      reads this
    {
      ValidState(processes)
    }

    constructor ()
      ensures Valid() && processes == []
    {
      processes := [];
    }

    method Register(record: Record, commit: Commit) returns (r: Result<Record, RegistryError>)
      requires Valid()
      modifies this
      ensures Valid()
      ensures !ValidRecord(record) ==> r == Err(Invalid) && processes == old(processes)
      ensures ValidRecord(record) ==>
                && processes == Updated(old(processes), RegisterState(old(processes), record), commit)
                && (r.Ok? <==> RegisterState(old(processes), record).Ok? && commit.Committed?)
                && (r.Ok? ==> r.value == record && record in processes)
    {
      if !ValidRecord(record) { return Err(Invalid); }
      var kept := Retain(processes, (x: Record) => x.pid != record.pid);
      if |kept| >= MAX_REGISTRY_RECORDS { return Err(Full); }
      RegisterKeepsOthers(processes, record);
      if Applied(commit) { processes := Sort(kept + [record], RecordLe); }
      return if commit.Committed? then Ok(record) else Err(NotWritten);
    }

    /** Returns the live records of the requested run and prunes the dead ones from the file. */
    method List(run: Option<string>, verdicts: seq<Option<Verdict>>, commit: Commit)
      returns (r: Result<seq<Record>, RegistryError>)
      requires Valid() && |verdicts| == |processes|
      modifies this
      ensures Valid()
      ensures run.Some? && !ValidText(run.value) ==> r == Err(Invalid) && processes == old(processes)
      ensures run.None? || ValidText(run.value) ==>
                && processes == Updated(old(processes), PruneState(old(processes), verdicts), commit)
                && (r.Ok? <==> PruneState(old(processes), verdicts).Ok? && commit.Committed?)
      ensures r.Ok? ==> Pairwise(r.value, RecordLe)
                        && forall x :: x in r.value <==>
                             x in PruneState(old(processes), verdicts).value && (run.None? || x.runId == run.value)
    {
      if run.Some? && !ValidText(run.value) { return Err(Invalid); }
      var ps := processes;
      PruneKeepsLive(ps, verdicts);
      var live: seq<Record>, retained: seq<Record> := [], [];
      for n := 0 to |ps|
        modifies {}
        invariant PruneState(ps[..n], verdicts) == Ok(retained)
        invariant forall x :: x in live <==> x in retained && (run.None? || x.runId == run.value)
      {
        assert ps[..n + 1][..n] == ps[..n];
        if verdicts[n].None? { return Err(Uncertain); }
        if verdicts[n].value.Live? {
          if run.None? || ps[n].runId == run.value { live := live + [ps[n]]; }
          retained := retained + [ps[n]];
        }
      }
      assert ps[..|ps|] == ps;
      PruneValid(ps, verdicts);
      SortMembers(live, RecordLe);
      RecordLeOrders();
      SortSorted(live, RecordLe);
      if Applied(commit) { processes := retained; }
      return if commit.Committed? then Ok(Sort(live, RecordLe)) else Err(NotWritten);
    }

    method RemoveIdentity(pid: nat, startTime: string, commit: Commit) returns (ok: bool)
      requires Valid()
      modifies this
      ensures Valid() && ok == commit.Committed?
      ensures processes == if Applied(commit) then RemoveState(old(processes), pid, startTime) else old(processes)
    {
      RemoveValid(processes, pid, startTime);
      var kept := Retain(processes, (x: Record) => !(x.pid == pid && x.startTime == startTime));
      if Applied(commit) { processes := kept; }
      return commit.Committed?;
    }

    /** Stops each match in turn; one failure never hides or stops the others. */
    method StopRecords(matches: seq<Record>, waitMs: nat, answers: seq<StopAnswer>)
      returns (r: Result<StopReport, RegistryError>)
      requires Valid() && |answers| == |matches|
      modifies this
      ensures Valid()
      ensures waitMs > MAX_STOP_WAIT_MS ==> r == Err(WaitTooLong) && processes == old(processes)
      ensures waitMs <= MAX_STOP_WAIT_MS ==>
                && processes == StopEffect(old(processes), matches, answers, |matches|)
                && r == Ok(ReportOf(matches, answers, |matches|))
    {
      if waitMs > MAX_STOP_WAIT_MS { return Err(WaitTooLong); }
      var report := StopReport([], []);
      for n := 0 to |matches|
        invariant Valid()
        invariant processes == StopEffect(old(processes), matches, answers, n)
        invariant report == ReportOf(matches, answers, n)
      {
        var a := answers[n];
        if a.outcome.None? {
          report := report.(failures := report.failures + [StopFailure(matches[n], Termination, None)]);
          continue;
        }
        var removed := RemoveIdentity(matches[n].pid, matches[n].startTime, a.commit);
        if removed {
          report := report.(stopped := report.stopped + [StopEntry(matches[n], a.outcome.value)]);
        } else {
          report := report.(failures := report.failures + [StopFailure(matches[n], RegistryUpdate, a.outcome)]);
        }
      }
      return Ok(report);
    }

    /**
     A stop request. Malformed text, an ambiguous selector or assignment, or a
     selector with no match leaves the registry alone and stops nothing.
     */
    method Stop(req: Request, verdicts: seq<Option<Verdict>>, waitMs: nat, answers: seq<StopAnswer>)
      returns (r: Result<StopReport, RegistryError>)
      requires Valid()
      requires var m := |Filter(processes, (p: Record) => Matches(req, p))|; |verdicts| == m && |answers| == m
      modifies this
      ensures Valid()
      ensures var matches := Filter(old(processes), (p: Record) => Matches(req, p));
        var competing := Filter(verdicts, MayBeLive);
        if !ValidRequest(req) then r == Err(Invalid) && processes == old(processes)
        else if matches == [] && req.Selector? then r == Err(NoMatch) && processes == old(processes)
        else if Exclusive(req) && |competing| > 1 then r == Err(Ambiguous) && processes == old(processes)
        else if matches == [] && req.Assignment? then r == Ok(StopReport([], [])) && processes == old(processes)
        else if waitMs > MAX_STOP_WAIT_MS then r == Err(WaitTooLong) && processes == old(processes)
        else
          && processes == StopEffect(old(processes), matches, answers, |matches|)
          && var report := ReportOf(matches, answers, |matches|);
             r == if req.Assignment? && report.failures != [] then Err(Incomplete) else Ok(report)
    {
      if !ValidRequest(req) { return Err(Invalid); }
      var matches := Retain(processes, (p: Record) => Matches(req, p));
      if matches == [] {
        if req.Selector? { return Err(NoMatch); }
        if req.Assignment? { return Ok(StopReport([], [])); }
      }
      var competing := Retain(verdicts, MayBeLive);
      if Exclusive(req) && |competing| > 1 { return Err(Ambiguous); }
      r := StopRecords(matches, waitMs, answers);
      if r.Ok? && req.Assignment? && r.value.failures != [] { r := Err(Incomplete); }
    }
  }
}
