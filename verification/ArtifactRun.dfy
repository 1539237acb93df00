/** The artifact run writer as the object its callers hold. */
module ArtifactRun {
  import opened Wrappers
  import opened ArtifactPaths
  import opened ArtifactWriter
  import opened ArtifactHistory
  import opened ArtifactResume

  function Invocations(scratches: map<string, ScratchKind>): set<string> {
    set n | n in scratches && scratches[n].SupervisorInvocation?
  }

  /** Nothing but some of the names is gone, and what is left is as it was. */
  ghost predicate OnlyDrops(before: map<string, ScratchKind>, after: map<string, ScratchKind>, names: set<string>) {
    && after.Keys <= before.Keys && before.Keys - names <= after.Keys
    && forall n | n in after :: after[n] == before[n]
  }

  /** How far discarding the names has come. */
  ghost predicate Discarding(before: map<string, ScratchKind>, now: map<string, ScratchKind>, names: set<string>,
      pending: set<string>, removed: set<string>) {
    pending <= names <= before.Keys && names - pending <= removed && now == before - (names - pending)
  }

  lemma {:induction false} DiscardedOne(before: map<string, ScratchKind>, now: map<string, ScratchKind>,
      names: set<string>, pending: set<string>, removed: set<string>, name: string)
    requires Discarding(before, now, names, pending, removed) && name in pending && name in removed
    ensures Discarding(before, now - {name}, names, pending - {name}, removed)
  {
    assert names - (pending - {name}) == (names - pending) + {name};
    assert now - {name} == before - (names - (pending - {name}));
  }

  lemma {:induction false} DiscardedSome(before: map<string, ScratchKind>, now: map<string, ScratchKind>,
      names: set<string>, pending: set<string>, removed: set<string>)
    requires Discarding(before, now, names, pending, removed)
    ensures OnlyDrops(before, now, names)
    ensures pending == {} ==> names <= removed && now.Keys == before.Keys - names
  {
  }

  class ArtifactRunWriter {
    var files: map<Path, FileRecord>
    var outstandingScratches: map<string, ScratchKind>
    var poisonedAppends: set<Path>
    var totalBytes: nat
    /** The run directory: file contents, and targets with a leftover temporary. */
    var disk: map<Path, Bytes>
    var residue: set<Path>
    /** Its directories, with or without files in them. */
    var dirs: set<Path>

    function State(): Writer
      reads this
    {
      Writer(files, outstandingScratches, poisonedAppends, totalBytes, disk, residue, dirs)
    }

    ghost predicate Valid()
      reads this
    {
      Accounted(State())
    }

    /** A newly reserved run is empty. */
    constructor Reserve()
      ensures Valid() && State() == Fresh
    {
      files, outstandingScratches, poisonedAppends := map[], map[], {};
      totalBytes, disk, residue, dirs := 0, map[], {}, {};
    }

    /** A run taken over from a checked binding, before any recovery file. */
    constructor Resume(b: Binding, tree: map<Path, Bytes>, directories: set<Path>)
      ensures State() == Resumed(b, tree, directories)
    {
      files, outstandingScratches, poisonedAppends := FromRecords(b.files), map[], {};
      totalBytes, disk, residue, dirs := SumRecords(b.files), tree, {}, directories;
    }

    method WriteBytes(raw: RawPath, contents: Bytes, disposition: Disposition, fault: WriteFault)
      returns (r: Result<FileRecord, WriterError>)
      requires Valid()
      modifies this
      ensures Valid()
      ensures var out := ArtifactWriter.WriteBytes(old(State()), raw, contents, disposition, fault);
        State() == out.writer && r == out.result
    {
      if fault.LockLostFirst? { return Err(LockLost); }
      if ValidatePath(raw).Err? { return Err(BadPath); }
      var p := ValidatePath(raw).value;
      WriteAccounted(State(), p, contents, disposition, fault);
      r := Commit(p, contents, disposition, fault);
    }

    /** The atomic write of a validated path, and its manifest entry. */
    method Commit(p: Path, contents: Bytes, disposition: Disposition, fault: WriteFault)
      returns (r: Result<FileRecord, WriterError>)
      modifies this
      ensures var out := WriteAt(old(State()), p, contents, disposition, fault);
        State() == out.writer && r == out.result
    {
      var refusal := WriteRefusal(State(), p, contents, disposition);
      if refusal.Some? { return Err(refusal.value); }
      dirs := dirs + (if fault.BeforeStage? then Above(p, fault.made) else Parents(p));
      if fault.BeforeStage? { return Err(Io); }
      if fault.AfterStage? {
        residue := residue + {p};
        return Err(Io);
      }
      residue := residue - {p};
      disk := disk[p := contents];
      if fault.AfterCommit? { return Err(Io); }
      var record := FileRecord(p, |contents|, contents, disposition);
      totalBytes := totalBytes - (if p in files then files[p].bytes else 0) + |contents|;
      files := files[p := record];
      return if fault.LockLostLast? then Err(LockLost) else Ok(record);
    }

    /** One recovery file: it must agree with what the audit found, and is then written. */
    method RecoverFile(audited: set<Path>, r: Planned) returns (ok: bool)
      modifies this
      ensures ok <==> RecoverOne(old(State()), audited, r).Ok?
      ensures ok ==> State() == RecoverOne(old(State()), audited, r).value
    {
      if r.path in audited && !(r.path in disk && disk[r.path] == r.contents) { return false; }
      var written := Commit(r.path, r.contents, r.disposition, NoWriteFault);
      return written.Ok?;
    }

    /** Appends, or on a torn write completes the append, or poisons the path. */
    method AppendBytes(raw: RawPath, contents: Bytes, disposition: Disposition, fault: AppendFault)
      returns (r: Result<FileRecord, WriterError>)
      requires Valid()
      modifies this
      ensures Valid()
      ensures var out := ArtifactWriter.AppendBytes(old(State()), raw, contents, disposition, fault);
        State() == out.writer && r == out.result
    {
      if fault.AppendLockLostFirst? { return Err(LockLost); }
      if ValidatePath(raw).Err? { return Err(BadPath); }
      var p := ValidatePath(raw).value;
      AppendAccounted(State(), p, contents, disposition, fault);
      r := Extend(p, contents, disposition, fault);
    }

    method Extend(p: Path, contents: Bytes, disposition: Disposition, fault: AppendFault)
      returns (r: Result<FileRecord, WriterError>)
      modifies this
      ensures var out := AppendAt(old(State()), p, contents, disposition, fault);
        State() == out.writer && r == out.result
    {
      var refusal := AppendRefusal(State(), p, |contents|, disposition);
      if refusal.Some? { return Err(refusal.value); }
      var previous := Before(State(), p);
      dirs := dirs + (if fault.BeforeOpen? then Above(p, fault.made) else Parents(p));
      if fault.BeforeOpen? { return Err(Io); }
      if fault.AfterOpen? {
        disk := disk[p := previous];
        return Err(Io);
      }
      if fault.Torn? {
        Tear(p, contents, disposition, fault.written, fault.recovery);
        return Err(Io);
      }
      Add(p, previous, contents, disposition);
      return if fault.AppendLockLostLast? then Err(LockLost) else Ok(files[p]);
    }

    method Add(p: Path, previous: Bytes, contents: Bytes, disposition: Disposition)
      modifies this
      ensures State() == Completed(old(State()), p, previous, contents, disposition)
    {
      var old_ := if p in files then files[p].bytes else 0;
      disk := disk[p := previous + contents];
      files := files[p := FileRecord(p, old_ + |contents|, previous + contents, disposition)];
      totalBytes := totalBytes + |contents|;
    }

    /** An append that stops part way, and its recovery. */
    method Tear(p: Path, contents: Bytes, disposition: Disposition, written: nat, recovery: Recovery)
      modifies this
      ensures State() == TornAppend(old(State()), p, contents, disposition, written, recovery)
    {
      var previous := Before(State(), p);
      disk := disk[p := previous + Take(contents, written)];
      var recovered := ReconcileFailedAppend(p, previous, contents, disposition, recovery);
      if !recovered { poisonedAppends := poisonedAppends + {p}; }
    }

    /** Appends the missing suffix of a torn append and manifests the completed file. */
    method ReconcileFailedAppend(p: Path, previous: Bytes, contents: Bytes, disposition: Disposition,
        recovery: Recovery)
      returns (ok: bool)
      requires p in disk
      modifies this
      ensures var out := Reconcile(old(State()), p, previous, contents, disposition, recovery);
        State() == out.writer && ok == out.result.Ok?
      ensures old(TornAt(State(), p, previous, contents)) && p !in old(poisonedAppends) && recovery.Recovers? ==>
                ok && State() == Completed(old(State()), p, previous, contents, disposition)
      ensures old(TornAt(State(), p, previous, contents)) && recovery.RecoveryFails? ==>
                !ok && State() == old(State()).(disk := disk) && TornAt(State(), p, previous, contents)
    {
      ReconcileOutcome(State(), p, previous, contents, disposition, recovery);
      var observed := disk[p];
      if !(previous <= observed) { return false; }
      var appended := observed[|previous|..];
      if !(appended <= contents) { return false; }
      var missing := contents[|appended|..];
      if recovery.RecoveryFails? {
        disk := disk[p := observed + Take(missing, recovery.restored)];
        return false;
      }
      disk := disk[p := observed + missing];
      if observed + missing != previous + contents { return false; }
      var old_ := if p in files then files[p].bytes else 0;
      files := files[p := FileRecord(p, old_ + |contents|, observed + missing, disposition)];
      totalBytes := totalBytes + |contents|;
      poisonedAppends := poisonedAppends - {p};
      return true;
    }

    /** The reservation of a scratch directory, apart from the accounting it keeps. */
    method TrackScratch(name: string, kind: ScratchKind, reserved: bool, kept: bool)
      returns (r: Result<(), WriterError>)
      modifies this
      ensures var out := CreateScratch(old(State()), name, kind, reserved, kept);
        State() == out.writer && r == out.result
    {
      if !ValidScratchName(name) || name in outstandingScratches { return Err(BadScratch); }
      if |outstandingScratches| >= MAX_ARTIFACT_SCRATCH_DIRECTORIES { return Err(TooManyScratches); }
      if exists p | p in files :: Under(p, [name]) { return Err(ScratchOverlap); }
      if (exists p | p in disk :: Under(p, [name])) || [name] in dirs || !reserved { return Err(Io); }
      outstandingScratches := outstandingScratches[name := kind];
      return if kept then Ok(()) else Err(LockLost);
    }

    method CreateScratchDir(name: string, kind: ScratchKind, reserved: bool, kept: bool)
      returns (r: Result<(), WriterError>)
      requires Valid()
      modifies this
      ensures Valid()
      ensures var out := CreateScratch(old(State()), name, kind, reserved, kept);
        State() == out.writer && r == out.result
    {
      ScratchAccounted(State(), name, kind, reserved, kept);
      r := TrackScratch(name, kind, reserved, kept);
    }

    method DiscardTrackedScratch(name: string, removed: bool) returns (r: Result<(), WriterError>)
      requires Valid()
      modifies this
      ensures Valid()
      ensures var out := DiscardScratch(old(State()), name, removed);
        State() == out.writer && r == out.result
    {
      DiscardAccounted(State(), name, removed);
      if name !in outstandingScratches { return Err(BadScratch); }
      if !removed { return Err(Io); }
      outstandingScratches := outstandingScratches - {name};
      return Ok(());
    }

    /** Discards the named scratches one by one, up to the first that cannot be removed. */
    method DiscardEach(names: set<string>, removed: set<string>) returns (r: Result<nat, WriterError>)
      requires Valid() && names <= outstandingScratches.Keys
      modifies this
      ensures Valid() && State() == old(State()).(scratches := outstandingScratches)
      ensures OnlyDrops(old(outstandingScratches), outstandingScratches, names)
      ensures r.Ok? <==> names <= removed
      ensures r.Ok? ==> r.value == |names| && outstandingScratches.Keys == old(outstandingScratches).Keys - names
    {
      var pending, count := names, 0;
      ghost var before := outstandingScratches;
      while pending != {}
        invariant Valid() && State() == old(State()).(scratches := outstandingScratches)
        invariant Discarding(before, outstandingScratches, names, pending, removed) && count + |pending| == |names|
        decreases |pending|
      {
        DiscardedSome(before, outstandingScratches, names, pending, removed);
        var name :| name in pending;
        ghost var now := outstandingScratches;
        var step := DiscardTrackedScratch(name, name in removed);
        if step.Err? { return Err(step.error); }
        DiscardedOne(before, now, names, pending, removed, name);
        pending := pending - {name};
        count := count + 1;
      }
      DiscardedSome(before, outstandingScratches, names, pending, removed);
      return Ok(count);
    }

    /**
     Discards the invocation scratches of a supervisor's run and leaves every other one
     outstanding; on success it returns their number. A failure stops it part way.
     */
    method DiscardInvocationScratches(supervise: bool, removed: set<string>) returns (r: Result<nat, WriterError>)
      requires Valid()
      modifies this
      ensures Valid() && State() == old(State()).(scratches := outstandingScratches)
      ensures OnlyDrops(old(outstandingScratches), outstandingScratches, Invocations(old(outstandingScratches)))
      ensures r.Ok? <==> supervise && Invocations(old(outstandingScratches)) <= removed
      ensures r.Ok? ==> r.value == |Invocations(old(outstandingScratches))| && Invocations(outstandingScratches) == {}
      ensures !supervise ==> outstandingScratches == old(outstandingScratches)
    {
      if !supervise { return Err(BadScratch); }
      r := DiscardEach(Invocations(outstandingScratches), removed);
    }

    /** The binding lists the manifest in some order, and is only handed out at a boundary. */
    method ResumeBinding() returns (r: Result<Binding, WriterError>)
      requires Valid()
      ensures r.Ok? <==> AtBoundary(State())
      ensures r.Ok? ==> Binds(State(), r.value) && BindingOk(r.value)
    {
      if outstandingScratches != map[] || poisonedAppends != {} { return Err(NotAtBoundary); }
      if !AuditPasses(disk.Keys, dirs, 1) { return Err(TreeTooLarge); }
      if !Exact(State()) { return Err(DigestMismatch); }
      var out := ListRecords(files);
      var b := Binding(ARTIFACT_FORMAT_VERSION, out);
      LiveBindingIsValid(State(), b);
      return Ok(b);
    }

    method FinalizeRun(report: RawPath, contract: Path, intent: Intent) returns (r: Result<Finalization, WriterError>)
      requires Valid()
      ensures r == Finalize(State(), report, contract, intent)
      ensures r.Ok? ==> r.value.files == files && Exact(State()) && contract in files && poisonedAppends == {}
                        && AuditPasses(disk.Keys, dirs, 2) && MarkerFits(files, intent)
      ensures r.Ok? && r.value.publishable ==> forall p | p in files :: files[p].disposition.Publishable?
    {
      if poisonedAppends != {} { return Err(Poisoned); }
      if outstandingScratches != map[] { return Err(NotAtBoundary); }
      if ValidatePath(report) != Ok(contract) || contract !in files { return Err(NotFinalReport); }
      if !AuditPasses(disk.Keys, dirs, 1) { return Err(TreeTooLarge); }
      if !Exact(State()) { return Err(DigestMismatch); }
      var publishable := MayPublish(files, intent.publish, intent.hasRevision);
      var records := SizeOfRecords(files);
      if intent.head + FlagJson(intent.publish) + FlagJson(publishable) + records > MAX_FINALIZATION_BYTES {
        return Err(MarkerTooLarge);
      }
      if !AuditPasses(disk.Keys, dirs, 2) { return Err(TreeTooLarge); }
      return Ok(Finalization(files, publishable));
    }
  }

  /** The bytes the records take up in the marker. */
  method SizeOfRecords(files: map<Path, FileRecord>) returns (n: nat)
    ensures n == SumOver(files, RecordJson)
  {
    var rest := files;
    n := 0;
    while rest != map[]
      invariant n + SumOver(rest, RecordJson) == SumOver(files, RecordJson)
      decreases |rest.Keys|
    {
      var p :| p in rest;
      SumSplit(rest, RecordJson, p);
      n := n + RecordJson(rest[p]);
      assert (rest - {p}).Keys == rest.Keys - {p};
      rest := rest - {p};
    }
  }

  /** Lists a manifest's records, each once. */
  method ListRecords(files: map<Path, FileRecord>) returns (out: seq<FileRecord>)
    requires forall p | p in files :: files[p].path == p
    ensures FromRecords(out) == files && DistinctPaths(out)
  {
    out := [];
    var remaining := files.Keys;
    while remaining != {}
      invariant remaining <= files.Keys && FromRecords(out) == files - remaining && DistinctPaths(out)
      decreases |remaining|
    {
      var p :| p in remaining;
      RecordsSnoc(out, files[p]);
      out := out + [files[p]];
      remaining := remaining - {p};
    }
  }

  lemma {:induction false} RecordsSnoc(records: seq<FileRecord>, record: FileRecord)
    requires DistinctPaths(records) && record.path !in FromRecords(records)
    ensures DistinctPaths(records + [record])
    ensures FromRecords(records + [record]) == FromRecords(records)[record.path := record]
  {
    StaysDistinct(records, record);
    assert (records + [record])[..|records|] == records;
  }

  lemma {:induction false} StaysDistinct(records: seq<FileRecord>, record: FileRecord)
    requires DistinctPaths(records) && record.path !in FromRecords(records)
    ensures DistinctPaths(records + [record])
  {
    RecordsMembers(records);
    forall i | 0 <= i < |records| ensures records[i].path != record.path {
      assert records[i].path in FromRecords(records);
    }
  }

  predicate PathsValid(recs: seq<RecoveryFile>) {
    forall i | 0 <= i < |recs| :: ValidatePath(recs[i].raw).Ok?
  }

  function PlanOf(recs: seq<RecoveryFile>): Plan
    requires PathsValid(recs)
  {
    seq(|recs|, i requires 0 <= i < |recs| =>
      Planned(ValidatePath(recs[i].raw).value, recs[i].contents, recs[i].disposition))
  }

  /** Validates the recovery paths in order. */
  method PlanFor(recs: seq<RecoveryFile>) returns (plan: Option<Plan>)
    ensures plan == if PathsValid(recs) then Some(PlanOf(recs)) else None
  {
    var out: Plan := [];
    for n := 0 to |recs|
      invariant PathsValid(recs[..n]) && out == PlanOf(recs[..n])
    {
      var valid := ValidateLoop(recs[n].raw);
      if valid.Err? { return None; }
      out := out + [Planned(valid.value, recs[n].contents, recs[n].disposition)];
    }
    assert recs[..|recs|] == recs;
    return Some(out);
  }

  /**
   Reopens an unfinalized run: every check, then each recovery file through the writer. `sameRun`
   says that the directory, its lock and its writer's evidence are the ones the binding names.
   */
  method Reopen(b: Binding, sameRun: bool, marker: bool, tree: map<Path, Bytes>, dirs: set<Path>,
      residue: set<Path>, recs: seq<RecoveryFile>)
    returns (run: ArtifactRunWriter?)
    ensures run != null <==>
            sameRun && !marker && PathsValid(recs) && ReopenPlan(b, tree, dirs, residue, PlanOf(recs)).Ok?
    ensures run != null ==>
            fresh(run) && run.Valid() && run.State() == ReopenPlan(b, tree, dirs, residue, PlanOf(recs)).value
  {
    var valid := ValidateBinding(b);
    if !valid || marker || !sameRun { return null; }
    var manifest := FromRecords(b.files);
    if !ManifestOnDisk(manifest, tree) { return null; }
    var plan := PlanFor(recs);
    if plan.None? || !PlanOk(manifest, plan.value) { return null; }
    if !Authorized(manifest, tree, dirs, residue, plan.value) { return null; }
    run := ReopenChecked(b, tree, dirs, residue, plan.value);
  }

  method ReopenChecked(b: Binding, tree: map<Path, Bytes>, dirs: set<Path>, residue: set<Path>, plan: Plan)
    returns (run: ArtifactRunWriter?)
    requires BindingOk(b) && ManifestOnDisk(FromRecords(b.files), tree) && PlanOk(FromRecords(b.files), plan)
    requires Authorized(FromRecords(b.files), tree, dirs, residue, plan)
    ensures run != null <==> ReopenPlan(b, tree, dirs, residue, plan).Ok?
    ensures run != null ==> fresh(run) && run.Valid() && run.State() == ReopenPlan(b, tree, dirs, residue, plan).value
  {
    var writer := new ArtifactRunWriter.Resume(b, tree, dirs);
    var recovered := RecoverAll(writer, tree.Keys, plan);
    if !recovered { return null; }
    var total := SumRecords(b.files) + SumContents(plan, |plan|);
    if writer.totalBytes != total || !AtBoundary(writer.State()) { return null; }
    ReopenAccounted(b, tree, dirs, plan);
    return writer;
  }

  /** Writes the recovery files in order, stopping at the first that fails. */
  method RecoverAll(writer: ArtifactRunWriter, audited: set<Path>, plan: Plan) returns (ok: bool)
    modifies writer
    ensures ok <==> Recover(old(writer.State()), audited, plan).Ok?
    ensures ok ==> writer.State() == Recover(old(writer.State()), audited, plan).value
  {
    ghost var start := writer.State();
    for n := 0 to |plan|
      invariant RecoverWith(RecoverOne, start, audited, plan, n) == Ok(writer.State())
    {
      var step := writer.RecoverFile(audited, plan[n]);
      if !step {
        RecoverFails(RecoverOne, start, audited, plan, n + 1);
        return false;
      }
    }
    return true;
  }

  lemma {:induction false} RecoverFails(step: Stepper, w: Writer, audited: set<Path>, plan: Plan, n: nat)
    requires n <= |plan| && RecoverWith(step, w, audited, plan, n).Err?
    ensures RecoverWith(step, w, audited, plan, |plan|).Err?
    decreases |plan| - n
  {
    if n < |plan| {
      RecoverFails(step, w, audited, plan, n + 1);
    }
  }
}
