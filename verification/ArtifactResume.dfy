/** Handing an unfinalized run to a later process: the resume binding and reopening from it. */
module ArtifactResume {
  import opened Wrappers
  import opened ArtifactPaths
  import opened ArtifactWriter
  import opened ArtifactHistory

  const ARTIFACT_FORMAT_VERSION := 2

  /** The manifest as a list of records, in whatever order it was serialized. */
  datatype Binding = Binding(version: nat, files: seq<FileRecord>)

  function FromRecords(rs: seq<FileRecord>): map<Path, FileRecord> {
    if rs == [] then map[] else FromRecords(rs[..|rs| - 1])[rs[|rs| - 1].path := rs[|rs| - 1]]
  }

  function SumRecords(rs: seq<FileRecord>): nat {
    if rs == [] then 0 else SumRecords(rs[..|rs| - 1]) + rs[|rs| - 1].bytes
  }

  ghost predicate DistinctPaths(rs: seq<FileRecord>) {
    forall i, j | 0 <= i < j < |rs| :: rs[i].path != rs[j].path
  }

  ghost predicate BindingOk(b: Binding) {
    && b.version == ARTIFACT_FORMAT_VERSION && |b.files| <= MAX_ARTIFACT_FILES && DistinctPaths(b.files)
    && (forall i | 0 <= i < |b.files| :: RecordWithinLimits(b.files[i]))
    && SumRecords(b.files) <= MAX_ARTIFACT_TOTAL_BYTES
  }

  /** The binding a writer at a boundary hands out. */
  ghost predicate Binds(w: Writer, b: Binding) {
    && AtBoundary(w) && b.version == ARTIFACT_FORMAT_VERSION
    && DistinctPaths(b.files) && FromRecords(b.files) == w.files
  }

  lemma {:induction false} RecordsMembers(rs: seq<FileRecord>)
    ensures forall p | p in FromRecords(rs) :: FromRecords(rs)[p] in rs && FromRecords(rs)[p].path == p
    ensures forall i | 0 <= i < |rs| :: rs[i].path in FromRecords(rs)
    ensures DistinctPaths(rs) ==> forall i | 0 <= i < |rs| :: FromRecords(rs)[rs[i].path] == rs[i]
  {
    if rs != [] {
      RecordsMembers(rs[..|rs| - 1]);
    }
  }

  lemma {:induction false} RecordsCounted(rs: seq<FileRecord>)
    requires DistinctPaths(rs)
    ensures SumRecords(rs) == SumBytes(FromRecords(rs)) && |rs| == |FromRecords(rs)|
  {
    if rs != [] {
      var n := |rs| - 1;
      RecordsCounted(rs[..n]);
      RecordsMembers(rs[..n]);
      SumUpdate(FromRecords(rs[..n]), Size, rs[n].path, rs[n]);
      InsertSize(FromRecords(rs[..n]), rs[n].path, rs[n]);
    }
  }

  lemma {:induction false} SumRecordsMonotone(rs: seq<FileRecord>, n: nat)
    requires n <= |rs|
    ensures SumRecords(rs[..n]) <= SumRecords(rs)
  {
    if n < |rs| {
      SumRecordsMonotone(rs[..|rs| - 1], n);
      assert rs[..|rs| - 1][..n] == rs[..n];
    } else {
      assert rs[..n] == rs;
    }
  }

  method IsCanonical(p: Path) returns (ok: bool)
    ensures ok <==> ValidPath(p)
  {
    var normalized := ValidateLoop(AsRaw(p));
    ValidIsCanonical(p);
    NamesOfRaw(p);
    return normalized.Ok? && normalized.value == p;
  }

  ghost predicate RecordWithinLimits(r: FileRecord) {
    ValidPath(r.path) && r.bytes <= MAX_ARTIFACT_FILE_BYTES
  }

  lemma {:induction false} KeysSnoc(files: seq<FileRecord>, n: nat)
    requires n < |files|
    ensures FromRecords(files[..n + 1]).Keys == FromRecords(files[..n]).Keys + {files[n].path}
  {
    assert files[..n + 1][..n] == files[..n];
  }

  ghost predicate Repeats(files: seq<FileRecord>, n: nat)
    requires n < |files|
  {
    exists i | 0 <= i < n :: files[i].path == files[n].path
  }

  lemma {:induction false} RepeatsIff(files: seq<FileRecord>, n: nat)
    requires n < |files|
    ensures Repeats(files, n) <==> files[n].path in FromRecords(files[..n])
  {
    var init := files[..n];
    RecordsMembers(init);
    if files[n].path in FromRecords(init) {
      var i :| 0 <= i < n && init[i] == FromRecords(init)[files[n].path];
      assert files[i].path == files[n].path;
    }
    if i :| 0 <= i < n && files[i].path == files[n].path { assert init[i].path in FromRecords(init); }
  }

  lemma {:induction false} DistinctSnoc(files: seq<FileRecord>, n: nat)
    requires n < |files| && DistinctPaths(files[..n])
    ensures DistinctPaths(files[..n + 1]) <==> !Repeats(files, n)
    ensures DistinctPaths(files) ==> !Repeats(files, n)
  {
    var next := files[..n + 1];
    if i :| 0 <= i < n && files[i].path == files[n].path { assert next[i].path == next[n].path; }
    assert forall i | 0 <= i < n :: next[i] == files[..n][i];
  }

  /** A path is new to the loop exactly when it keeps the prefix free of repetitions. */
  lemma {:induction false} SeenIffRepeated(files: seq<FileRecord>, n: nat)
    requires n < |files| && DistinctPaths(files[..n])
    ensures DistinctPaths(files[..n + 1]) <==> files[n].path !in FromRecords(files[..n])
    ensures DistinctPaths(files) ==> DistinctPaths(files[..n + 1])
    ensures FromRecords(files[..n + 1]).Keys == FromRecords(files[..n]).Keys + {files[n].path}
  {
    KeysSnoc(files, n);
    RepeatsIff(files, n);
    DistinctSnoc(files, n);
  }

  ghost predicate Passed(files: seq<FileRecord>, n: nat, total: nat)
    requires n <= |files|
  {
    && DistinctPaths(files[..n]) && (forall i | 0 <= i < n :: RecordWithinLimits(files[i]))
    && total == SumRecords(files[..n]) && total <= MAX_ARTIFACT_TOTAL_BYTES
  }

  lemma {:induction false} SumNext(files: seq<FileRecord>, n: nat)
    requires n < |files|
    ensures SumRecords(files[..n + 1]) == SumRecords(files[..n]) + files[n].bytes
    ensures SumRecords(files[..n + 1]) <= SumRecords(files)
  {
    assert files[..n + 1][..n] == files[..n];
    SumRecordsMonotone(files, n + 1);
  }

  /** The validation loop, with its running total, accepts exactly the well-formed bindings. */
  method ValidateBinding(b: Binding) returns (ok: bool)
    ensures ok <==> BindingOk(b)
  {
    if b.version != ARTIFACT_FORMAT_VERSION || |b.files| > MAX_ARTIFACT_FILES { return false; }
    var seen: set<Path>, total: nat := {}, 0;
    for n := 0 to |b.files|
      invariant seen == FromRecords(b.files[..n]).Keys && Passed(b.files, n, total)
    {
      var record := b.files[n];
      SeenIffRepeated(b.files, n);
      SumNext(b.files, n);
      var canonical := IsCanonical(record.path);
      if !canonical || record.path in seen || record.bytes > MAX_ARTIFACT_FILE_BYTES { return false; }
      seen := seen + {record.path};
      total := total + record.bytes;
      if total > MAX_ARTIFACT_TOTAL_BYTES { return false; }
    }
    assert b.files[..|b.files|] == b.files;
    return true;
  }

  /** Every binding a live writer produces passes validation. */
  lemma {:induction false} LiveBindingIsValid(w: Writer, b: Binding)
    requires Accounted(w) && Binds(w, b)
    ensures BindingOk(b)
  {
    RecordsCounted(b.files);
    RecordsMembers(b.files);
    forall i | 0 <= i < |b.files| ensures RecordWithinLimits(b.files[i]) {
      var p := b.files[i].path;
      assert w.files[p] == b.files[i] && RecordOk(p, w.files[p]);
    }
  }

  // ---- reopening ----

  datatype RecoveryFile = RecoveryFile(raw: RawPath, contents: Bytes, disposition: Disposition)

  /** A recovery file whose path has been validated. */
  datatype Planned = Planned(path: Path, contents: Bytes, disposition: Disposition)

  type Plan = seq<Planned>

  predicate Distinct(plan: Plan) {
    forall i, j | 0 <= i < j < |plan| :: plan[i].path != plan[j].path
  }

  predicate AllValid(plan: Plan) {
    forall i | 0 <= i < |plan| :: ValidPath(plan[i].path)
  }

  /** Distinct recovery files, none of them manifested already. */
  predicate AllNew(files: map<Path, FileRecord>, plan: Plan) {
    Distinct(plan) && forall i | 0 <= i < |plan| :: plan[i].path !in files
  }

  predicate PlanOk(files: map<Path, FileRecord>, plan: Plan) {
    AllValid(plan) && AllNew(files, plan)
  }

  predicate InPlan(plan: Plan, n: nat, p: Path) {
    exists i | 0 <= i < n && i < |plan| :: plan[i].path == p
  }

  /** The audited tree holds the manifest, and beyond it only files of the recovery plan. */
  predicate Authorized(files: map<Path, FileRecord>, disk: map<Path, Bytes>, dirs: set<Path>, residue: set<Path>,
      plan: Plan) {
    && files.Keys <= disk.Keys && residue == {} && AuditPasses(disk.Keys, dirs, 1)
    && forall p | p in disk && p !in files :: InPlan(plan, |plan|, p)
  }

  predicate ManifestOnDisk(files: map<Path, FileRecord>, disk: map<Path, Bytes>) {
    forall p | p in files :: p in disk && disk[p] == files[p].digest && |disk[p]| == files[p].bytes
  }

  /** One recovery file: if the audit found it, it must hold the planned bytes; then it is written. */
  function RecoverOne(w: Writer, audited: set<Path>, r: Planned): Result<Writer, WriterError> {
    if r.path in audited && !(r.path in w.disk && w.disk[r.path] == r.contents) then Err(DigestMismatch)
    else
      var out := WriteAt(w, r.path, r.contents, r.disposition, NoWriteFault);
      if out.result.Err? then Err(out.result.error) else Ok(out.writer)
  }

  type Stepper = (Writer, set<Path>, Planned) -> Result<Writer, WriterError>

  /** The writer after the first `n` recovery files, each taken by one step. */
  function RecoverWith(step: Stepper, w: Writer, audited: set<Path>, plan: Plan, n: nat): Result<Writer, WriterError>
    requires n <= |plan|
  {
    if n == 0 then Ok(w)
    else
      var before := RecoverWith(step, w, audited, plan, n - 1);
      if before.Err? then before else step(before.value, audited, plan[n - 1])
  }

  function Recover(w: Writer, audited: set<Path>, plan: Plan): Result<Writer, WriterError> {
    RecoverWith(RecoverOne, w, audited, plan, |plan|)
  }

  /** What every step keeps, a successful recovery ends with. */
  lemma {:induction false} RecoverKeeps(step: Stepper, w: Writer, audited: set<Path>, plan: Plan, n: nat,
      inv: (Writer, nat) -> bool)
    requires n <= |plan| && inv(w, 0) && RecoverWith(step, w, audited, plan, n).Ok?
    requires forall v, i: nat | i < n && inv(v, i) && step(v, audited, plan[i]).Ok? ::
             inv(step(v, audited, plan[i]).value, i + 1)
    ensures inv(RecoverWith(step, w, audited, plan, n).value, n)
  {
    if n > 0 {
      RecoverKeeps(step, w, audited, plan, n - 1, inv);
    }
  }

  /** A recovery that succeeds is followed step for step by any recovery it simulates. */
  lemma {:induction false} RecoverFollows(step: Stepper, w: Writer, audited: set<Path>, w': Writer, audited': set<Path>,
                                          plan: Plan, n: nat, inv: (Writer, nat) -> bool, twin: (Writer, nat) -> Writer)
    requires n <= |plan| && inv(w, 0) && twin(w, 0) == w' && RecoverWith(step, w, audited, plan, n).Ok?
    requires forall v, i: nat | i < n && inv(v, i) && step(v, audited, plan[i]).Ok? ::
               && inv(step(v, audited, plan[i]).value, i + 1)
               && step(twin(v, i), audited', plan[i]) == Ok(twin(step(v, audited, plan[i]).value, i + 1))
    ensures inv(RecoverWith(step, w, audited, plan, n).value, n)
    ensures RecoverWith(step, w', audited', plan, n) == Ok(twin(RecoverWith(step, w, audited, plan, n).value, n))
  {
    if n > 0 {
      RecoverFollows(step, w, audited, w', audited', plan, n - 1, inv, twin);
    }
  }

  function SumContents(plan: Plan, n: nat): nat
    requires n <= |plan|
  {
    if n == 0 then 0 else SumContents(plan, n - 1) + |plan[n - 1].contents|
  }

  function Resumed(b: Binding, disk: map<Path, Bytes>, dirs: set<Path>): Writer {
    Writer(FromRecords(b.files), map[], {}, SumRecords(b.files), disk, {}, dirs)
  }

  /** The checks behind a recovery. */
  ghost function Confirm(b: Binding, plan: Plan, recovered: Result<Writer, WriterError>): Result<Writer, WriterError> {
    if recovered.Err? then recovered
    else if recovered.value.total != SumRecords(b.files) + SumContents(plan, |plan|) then Err(Accounting)
    else if !AtBoundary(recovered.value) then Err(NotAtBoundary)
    else recovered
  }

  /** Reopening over a tree of the given files, directories and leftover temporaries. */
  ghost function ReopenPlan(b: Binding, disk: map<Path, Bytes>, dirs: set<Path>, residue: set<Path>,
      plan: Plan): Result<Writer, WriterError> {
    var files := FromRecords(b.files);
    if !BindingOk(b) then Err(BadPath)
    else if !ManifestOnDisk(files, disk) then Err(DigestMismatch)
    else if !PlanOk(files, plan) then Err(BadPath)
    else if !Authorized(files, disk, dirs, residue, plan) then Err(NotAtBoundary)
    else Confirm(b, plan, Recover(Resumed(b, disk, dirs), disk.Keys, plan))
  }

  /** The directory after the first `n` recovery writes: what a crash at that point leaves. */
  function DiskAfter(disk: map<Path, Bytes>, plan: Plan, n: nat): map<Path, Bytes>
    requires n <= |plan|
  {
    if n == 0 then disk else DiskAfter(disk, plan, n - 1)[plan[n - 1].path := plan[n - 1].contents]
  }

  lemma {:induction false} DiskAfterKeys(disk: map<Path, Bytes>, plan: Plan, n: nat, p: Path)
    requires n <= |plan|
    ensures p in DiskAfter(disk, plan, n) <==> p in disk || InPlan(plan, n, p)
  {
    if n > 0 {
      DiskAfterKeys(disk, plan, n - 1, p);
      assert InPlan(plan, n, p) <==> InPlan(plan, n - 1, p) || plan[n - 1].path == p;
    }
  }

  lemma {:induction false} DiskAfterAt(disk: map<Path, Bytes>, plan: Plan, n: nat, i: nat)
    requires i < n <= |plan| && Distinct(plan)
    ensures plan[i].path in DiskAfter(disk, plan, n) && DiskAfter(disk, plan, n)[plan[i].path] == plan[i].contents
  {
    if i < n - 1 {
      DiskAfterAt(disk, plan, n - 1, i);
    }
  }

  lemma {:induction false} DiskAfterElsewhere(disk: map<Path, Bytes>, plan: Plan, n: nat, p: Path)
    requires n <= |plan| && p in disk && forall i | 0 <= i < n :: plan[i].path != p
    ensures p in DiskAfter(disk, plan, n) && DiskAfter(disk, plan, n)[p] == disk[p]
  {
    if n > 0 {
      DiskAfterElsewhere(disk, plan, n - 1, p);
    }
  }

  lemma {:induction false} RecoverOneShape(w: Writer, audited: set<Path>, r: Planned)
    requires r.path !in w.files && w.residue == {} && RecoverOne(w, audited, r).Ok?
    ensures !Blocked(w.disk, r.path) && r.path !in w.dirs && RecoverOne(w, audited, r).value == WithRecovery(w, r)
  {
    assert WriteRefusal(w, r.path, r.contents, r.disposition).None?;
    assert w.residue - {r.path} == {};
  }

  lemma {:induction false} AcceptedElsewhere(w: Writer, p: Path, c: Bytes, d: Disposition, disk: map<Path, Bytes>,
      dirs: set<Path>)
    requires WriteRefusal(w, p, c, d).None? && !Blocked(disk, p) && p !in dirs
    ensures WriteRefusal(w.(disk := disk, dirs := dirs), p, c, d).None?
  {
  }

  /** An accepted recovery step whose file is as planned, if the audit found it. */
  lemma {:induction false} RecoverOneIs(v: Writer, audited: set<Path>, r: Planned)
    requires r.path !in v.files && v.residue == {} && WriteRefusal(v, r.path, r.contents, r.disposition).None?
    requires r.path in audited ==> r.path in v.disk && v.disk[r.path] == r.contents
    ensures RecoverOne(v, audited, r) == Ok(WithRecovery(v, r))
  {
    assert v.residue - {r.path} == {};
  }

  /** The same recovery step over another directory that does not get in its way. */
  lemma {:induction false} RecoverOneElsewhere(w: Writer, audited: set<Path>, r: Planned, disk: map<Path, Bytes>,
      dirs: set<Path>, audited': set<Path>)
    requires r.path !in w.files && w.residue == {} && RecoverOne(w, audited, r).Ok?
    requires !Blocked(disk, r.path) && r.path !in dirs
    requires r.path in audited' ==> r.path in disk && disk[r.path] == r.contents
    ensures var v := w.(disk := disk, dirs := dirs); RecoverOne(v, audited', r) == Ok(WithRecovery(v, r))
  {
    assert WriteRefusal(w, r.path, r.contents, r.disposition).None?;
    AcceptedElsewhere(w, r.path, r.contents, r.disposition, disk, dirs);
    RecoverOneIs(w.(disk := disk, dirs := dirs), audited', r);
  }

  /** The directories after the first `n` recovery writes. */
  function DirsAfter(dirs: set<Path>, plan: Plan, n: nat): set<Path>
    requires n <= |plan|
  {
    if n == 0 then dirs else DirsAfter(dirs, plan, n - 1) + Parents(plan[n - 1].path)
  }

  lemma {:induction false} DirsAfterMembers(dirs: set<Path>, plan: Plan, n: nat, d: Path)
    requires n <= |plan|
    ensures d in DirsAfter(dirs, plan, n) <==> d in dirs || exists j | 0 <= j < n :: d in Parents(plan[j].path)
  {
    if n > 0 { DirsAfterMembers(dirs, plan, n - 1, d); }
  }

  lemma {:induction false} DirsAfterGrow(dirs: set<Path>, plan: Plan, n: nat, m: nat)
    requires n <= m <= |plan|
    ensures dirs <= DirsAfter(dirs, plan, n) <= DirsAfter(dirs, plan, m)
  {
    forall d ensures (d in dirs ==> d in DirsAfter(dirs, plan, n))
                     && (d in DirsAfter(dirs, plan, n) ==> d in DirsAfter(dirs, plan, m))
    {
      DirsAfterMembers(dirs, plan, n, d);
      DirsAfterMembers(dirs, plan, m, d);
    }
  }

  /** No directory stood where the planned file was to go. */
  ghost predicate NoDirAt(dirs: set<Path>, plan: Plan, i: nat)
    requires i < |plan|
  {
    plan[i].path !in DirsAfter(dirs, plan, i)
  }

  ghost predicate NoDirs(dirs: set<Path>, plan: Plan, n: nat)
    requires n <= |plan|
  {
    forall i | 0 <= i < n :: NoDirAt(dirs, plan, i)
  }

  /** The planned write was not blocked when its turn came, and fitted a file already there. */
  ghost predicate Turn(disk: map<Path, Bytes>, plan: Plan, i: nat)
    requires i < |plan|
  {
    && !Blocked(DiskAfter(disk, plan, i), plan[i].path)
    && (plan[i].path in disk ==> disk[plan[i].path] == plan[i].contents)
  }

  ghost predicate InTurn(disk: map<Path, Bytes>, plan: Plan, n: nat)
    requires n <= |plan|
  {
    forall i | 0 <= i < n :: Turn(disk, plan, i)
  }

  /** What a recovery from `w` has done after `n` files. */
  ghost predicate Recovered(w: Writer, plan: Plan, v: Writer, n: nat) {
    && n <= |plan| && v.disk == DiskAfter(w.disk, plan, n) && v.total == w.total + SumContents(plan, n)
    && v.scratches == w.scratches && v.poisoned == w.poisoned && v.residue == {}
    && (forall p | p in v.files :: p in w.files || InPlan(plan, n, p))
    && (forall p | p in w.files :: p in v.files && v.files[p] == w.files[p])
    && InTurn(w.disk, plan, n) && v.dirs == DirsAfter(w.dirs, plan, n) && NoDirs(w.dirs, plan, n)
  }

  lemma {:induction false} NotYetPlanned(plan: Plan, n: nat)
    requires n < |plan| && Distinct(plan)
    ensures !InPlan(plan, n, plan[n].path)
  {
  }

  /** The writer with one recovery file written. */
  function WithRecovery(v: Writer, r: Planned): Writer {
    v.(disk := v.disk[r.path := r.contents], dirs := v.dirs + Parents(r.path), total := v.total + |r.contents|,
       files := v.files[r.path := FileRecord(r.path, |r.contents|, r.contents, r.disposition)])
  }

  lemma {:induction false} InTurnExtends(disk: map<Path, Bytes>, plan: Plan, i: nat)
    requires i < |plan| && InTurn(disk, plan, i) && Turn(disk, plan, i)
    ensures InTurn(disk, plan, i + 1)
  {
  }

  lemma {:induction false} RecoveredExtends(w: Writer, plan: Plan, v: Writer, i: nat)
    requires i < |plan| && Recovered(w, plan, v, i) && plan[i].path !in v.files && InTurn(w.disk, plan, i + 1)
    requires NoDirAt(w.dirs, plan, i)
    ensures Recovered(w, plan, WithRecovery(v, plan[i]), i + 1)
  {
    var v' := WithRecovery(v, plan[i]);
    forall p | p in v'.files ensures p in w.files || InPlan(plan, i + 1, p) {
      if p == plan[i].path {
        assert plan[i].path == p;
      } else if p !in w.files {
        var j :| 0 <= j < i && plan[j].path == p;
      }
    }
  }

  lemma {:induction false} RecoveredStep(w: Writer, plan: Plan, v: Writer, i: nat)
    requires AllNew(w.files, plan) && i < |plan| && Recovered(w, plan, v, i) && RecoverOne(v, w.disk.Keys, plan[i]).Ok?
    ensures plan[i].path !in v.files && Recovered(w, plan, RecoverOne(v, w.disk.Keys, plan[i]).value, i + 1)
  {
    var r := plan[i];
    NotYetPlanned(plan, i);
    RecoverOneShape(v, w.disk.Keys, r);
    if r.path in w.disk { DiskAfterElsewhere(w.disk, plan, i, r.path); }
    InTurnExtends(w.disk, plan, i);
    assert NoDirAt(w.dirs, plan, i);
    RecoveredExtends(w, plan, v, i);
  }

  /** After any number of recovery files: exactly those are added to the manifest, the tree and the total. */
  lemma {:induction false} RecoverShape(w: Writer, plan: Plan, n: nat)
    requires AllNew(w.files, plan) && w.residue == {}
    requires n <= |plan| && RecoverWith(RecoverOne, w, w.disk.Keys, plan, n).Ok?
    ensures Recovered(w, plan, RecoverWith(RecoverOne, w, w.disk.Keys, plan, n).value, n)
  {
    forall v, i: nat | i < n && Recovered(w, plan, v, i) && RecoverOne(v, w.disk.Keys, plan[i]).Ok?
      ensures Recovered(w, plan, RecoverOne(v, w.disk.Keys, plan[i]).value, i + 1)
    {
      RecoveredStep(w, plan, v, i);
    }
    RecoverKeeps(RecoverOne, w, w.disk.Keys, plan, n, (v: Writer, i: nat) => Recovered(w, plan, v, i));
  }

  /** Recovery byte accounting always agrees with the writer, so that check never fires. */
  lemma {:induction false} RecoveryAccountingAgrees(b: Binding, disk: map<Path, Bytes>, dirs: set<Path>, plan: Plan)
    requires PlanOk(FromRecords(b.files), plan) && Recover(Resumed(b, disk, dirs), disk.Keys, plan).Ok?
    ensures Recover(Resumed(b, disk, dirs), disk.Keys, plan).value.total ==
            SumRecords(b.files) + SumContents(plan, |plan|)
  {
    RecoverShape(Resumed(b, disk, dirs), plan, |plan|);
  }

  /** If the whole plan can be written, no recovery path gets in the way of another. */
  lemma {:induction false} PlannedApart(disk: map<Path, Bytes>, plan: Plan, i: nat, j: nat)
    requires InTurn(disk, plan, |plan|) && Distinct(plan) && i < j < |plan|
    ensures !Conflicts(plan[j].path, plan[i].path) && !Conflicts(plan[i].path, plan[j].path)
  {
    DiskAfterAt(disk, plan, j, i);
    assert Turn(disk, plan, j);
    assert !Conflicts(plan[j].path, plan[i].path);
  }

  lemma {:induction false} NeverInTheWay(disk: map<Path, Bytes>, plan: Plan, i: nat, m: nat, q: Path)
    requires InTurn(disk, plan, |plan|) && Distinct(plan) && i < |plan| && m <= |plan|
    requires q in DiskAfter(disk, plan, m) && q != plan[i].path
    ensures !Conflicts(plan[i].path, q)
  {
    DiskAfterKeys(disk, plan, m, q);
    if q in disk {
      DiskAfterKeys(disk, plan, i, q);
      assert Turn(disk, plan, i);
    } else {
      var j :| 0 <= j < m && plan[j].path == q;
      if i < j { PlannedApart(disk, plan, i, j); } else { PlannedApart(disk, plan, j, i); }
    }
  }

  lemma {:induction false} NeverBlocked(disk: map<Path, Bytes>, plan: Plan, i: nat, m: nat)
    requires InTurn(disk, plan, |plan|) && Distinct(plan) && i < |plan| && m <= |plan|
    ensures !Blocked(DiskAfter(disk, plan, m), plan[i].path)
  {
    var now := DiskAfter(disk, plan, m);
    forall q | q in now ensures !Conflicts(plan[i].path, q) {
      if q != plan[i].path { NeverInTheWay(disk, plan, i, m, q); }
    }
  }

  /** No recovery file goes where any directory of the recovered tree is. */
  lemma {:induction false} PlannedIsNoDir(disk: map<Path, Bytes>, dirs: set<Path>, plan: Plan, i: nat)
    requires InTurn(disk, plan, |plan|) && NoDirs(dirs, plan, |plan|) && Distinct(plan) && i < |plan|
    ensures plan[i].path !in DirsAfter(dirs, plan, |plan|)
  {
    var p := plan[i].path;
    assert NoDirAt(dirs, plan, i);
    DirsAfterMembers(dirs, plan, i, p);
    DirsAfterMembers(dirs, plan, |plan|, p);
    forall j | i <= j < |plan| ensures p !in Parents(plan[j].path) {
      if i < j { PlannedApart(disk, plan, i, j); }
    }
  }

  /** Writing a recovery file that a crashed attempt already wrote changes nothing. */
  lemma {:induction false} RewriteIsNoop(disk: map<Path, Bytes>, plan: Plan, m: nat, n: nat)
    requires n < |plan| && m <= |plan| && Distinct(plan)
    ensures DiskAfter(disk, plan, Max(m, n))[plan[n].path := plan[n].contents] == DiskAfter(disk, plan, Max(m, n + 1))
  {
    if n < m { DiskAfterAt(disk, plan, m, n); }
  }

  /** A file the restarted audit finds for the next recovery already has the planned contents. */
  lemma {:induction false} RestartSees(disk: map<Path, Bytes>, plan: Plan, m: nat, n: nat)
    requires InTurn(disk, plan, |plan|) && Distinct(plan) && m <= |plan| && n < |plan|
    requires plan[n].path in DiskAfter(disk, plan, m)
    ensures var now := DiskAfter(disk, plan, Max(m, n)); plan[n].path in now && now[plan[n].path] == plan[n].contents
  {
    if n < m {
      DiskAfterAt(disk, plan, m, n);
    } else {
      DiskAfterKeys(disk, plan, m, plan[n].path);
      assert Turn(disk, plan, n);
      DiskAfterElsewhere(disk, plan, n, plan[n].path);
    }
  }

  /** The directories a crashed recovery may leave: all that were there, and none that it would not make. */
  ghost predicate LeftDirs(dirs: set<Path>, plan: Plan, made: set<Path>) {
    dirs <= made <= DirsAfter(dirs, plan, |plan|)
  }

  /** In the restarted recovery too, no directory is where the next file goes. */
  lemma {:induction false} RestartClear(disk: map<Path, Bytes>, dirs: set<Path>, plan: Plan, made: set<Path>, n: nat)
    requires InTurn(disk, plan, |plan|) && NoDirs(dirs, plan, |plan|) && Distinct(plan) && n < |plan|
    requires LeftDirs(dirs, plan, made)
    ensures plan[n].path !in made + DirsAfter(dirs, plan, n)
  {
    PlannedIsNoDir(disk, dirs, plan, n);
    DirsAfterGrow(dirs, plan, n, |plan|);
  }

  lemma {:induction false} TwinStep(disk: map<Path, Bytes>, v: Writer, plan: Plan, m: nat, made: set<Path>, n: nat)
    requires Distinct(plan) && m <= |plan| && n < |plan|
    ensures WithRecovery(Twin(disk, plan, m, made, v, n), plan[n]) ==
            Twin(disk, plan, m, made, WithRecovery(v, plan[n]), n + 1)
  {
    RewriteIsNoop(disk, plan, m, n);
    assert made + v.dirs + Parents(plan[n].path) == made + (v.dirs + Parents(plan[n].path));
  }

  lemma {:induction false} RestartStep(disk: map<Path, Bytes>, v: Writer, plan: Plan, m: nat, made: set<Path>, n: nat)
    requires InTurn(disk, plan, |plan|) && Distinct(plan) && m <= |plan| && n < |plan|
    requires plan[n].path !in made + v.dirs
    requires v.residue == {} && plan[n].path !in v.files && RecoverOne(v, disk.Keys, plan[n]).Ok?
    ensures RecoverOne(Twin(disk, plan, m, made, v, n), DiskAfter(disk, plan, m).Keys, plan[n])
         == Ok(Twin(disk, plan, m, made, RecoverOne(v, disk.Keys, plan[n]).value, n + 1))
  {
    var r, now, seen := plan[n], DiskAfter(disk, plan, Max(m, n)), DiskAfter(disk, plan, m).Keys;
    NeverBlocked(disk, plan, n, Max(m, n));
    if r.path in seen { RestartSees(disk, plan, m, n); }
    RecoverOneElsewhere(v, disk.Keys, r, now, made + v.dirs, seen);
    RecoverOneShape(v, disk.Keys, r);
    TwinStep(disk, v, plan, m, made, n);
  }

  /** The writer of the restarted recovery that corresponds to `v` after `i` files. */
  function Twin(disk: map<Path, Bytes>, plan: Plan, m: nat, made: set<Path>, v: Writer, i: nat): Writer {
    if m <= |plan| && i <= |plan| then v.(disk := DiskAfter(disk, plan, Max(m, i)), dirs := made + v.dirs) else v
  }

  lemma {:induction false} FollowStep(w: Writer, plan: Plan, m: nat, made: set<Path>, v: Writer, i: nat)
    requires AllNew(w.files, plan) && InTurn(w.disk, plan, |plan|) && NoDirs(w.dirs, plan, |plan|)
    requires m <= |plan| && i < |plan| && LeftDirs(w.dirs, plan, made)
    requires Recovered(w, plan, v, i) && RecoverOne(v, w.disk.Keys, plan[i]).Ok?
    ensures Recovered(w, plan, RecoverOne(v, w.disk.Keys, plan[i]).value, i + 1)
    ensures RecoverOne(Twin(w.disk, plan, m, made, v, i), DiskAfter(w.disk, plan, m).Keys, plan[i])
         == Ok(Twin(w.disk, plan, m, made, RecoverOne(v, w.disk.Keys, plan[i]).value, i + 1))
  {
    RecoveredStep(w, plan, v, i);
    RestartClear(w.disk, w.dirs, plan, made, i);
    RestartStep(w.disk, v, plan, m, made, i);
  }

  /** From a crash after `m` writes, the restarted recovery passes through the same manifests. */
  lemma {:induction false} RestartFollows(w: Writer, plan: Plan, m: nat, made: set<Path>)
    requires AllNew(w.files, plan) && w.residue == {} && m <= |plan| && Recover(w, w.disk.Keys, plan).Ok?
    requires LeftDirs(w.dirs, plan, made)
    ensures var crashed := DiskAfter(w.disk, plan, m);
      Recover(w.(disk := crashed, dirs := made), crashed.Keys, plan) == Recover(w, w.disk.Keys, plan)
  {
    RecoverShape(w, plan, |plan|);
    var crashed := DiskAfter(w.disk, plan, m);
    forall v, i: nat | i < |plan| && Recovered(w, plan, v, i) && RecoverOne(v, w.disk.Keys, plan[i]).Ok?
      ensures Recovered(w, plan, RecoverOne(v, w.disk.Keys, plan[i]).value, i + 1)
      ensures RecoverOne(Twin(w.disk, plan, m, made, v, i), crashed.Keys, plan[i])
           == Ok(Twin(w.disk, plan, m, made, RecoverOne(v, w.disk.Keys, plan[i]).value, i + 1))
    {
      FollowStep(w, plan, m, made, v, i);
    }
    assert made + w.dirs == made;
    RecoverFollows(RecoverOne, w, w.disk.Keys, w.(disk := crashed, dirs := made), crashed.Keys, plan, |plan|,
                   (v: Writer, i: nat) => Recovered(w, plan, v, i),
                   (v: Writer, i: nat) => Twin(w.disk, plan, m, made, v, i));
    assert made + DirsAfter(w.dirs, plan, |plan|) == DirsAfter(w.dirs, plan, |plan|);
  }

  /** A crash inside a recovery leaves a tree that is still authorized. */
  lemma {:induction false} CrashedTreePasses(disk: map<Path, Bytes>, dirs: set<Path>, plan: Plan, m: nat,
      made: set<Path>)
    requires m <= |plan| && LeftDirs(dirs, plan, made)
    requires AuditPasses(DiskAfter(disk, plan, |plan|).Keys, DirsAfter(dirs, plan, |plan|), 1)
    ensures AuditPasses(DiskAfter(disk, plan, m).Keys, made, 1)
  {
    forall p | p in DiskAfter(disk, plan, m) ensures p in DiskAfter(disk, plan, |plan|) {
      DiskAfterKeys(disk, plan, m, p);
      DiskAfterKeys(disk, plan, |plan|, p);
      if p !in disk { var i :| 0 <= i < m && plan[i].path == p; }
    }
    EntriesMonotone(DiskAfter(disk, plan, m).Keys, made, DiskAfter(disk, plan, |plan|).Keys,
                    DirsAfter(dirs, plan, |plan|));
  }

  lemma {:induction false} CrashedTreeAuthorized(files: map<Path, FileRecord>, disk: map<Path, Bytes>, dirs: set<Path>,
      plan: Plan, m: nat, made: set<Path>)
    requires m <= |plan| && PlanOk(files, plan) && ManifestOnDisk(files, disk) && LeftDirs(dirs, plan, made)
    requires Authorized(files, disk, dirs, {}, plan)
    requires AuditPasses(DiskAfter(disk, plan, |plan|).Keys, DirsAfter(dirs, plan, |plan|), 1)
    ensures ManifestOnDisk(files, DiskAfter(disk, plan, m))
    ensures Authorized(files, DiskAfter(disk, plan, m), made, {}, plan)
  {
    var crashed := DiskAfter(disk, plan, m);
    CrashedTreePasses(disk, dirs, plan, m, made);
    forall p | p in files ensures p in crashed && crashed[p] == disk[p] { DiskAfterElsewhere(disk, plan, m, p); }
    forall p | p in crashed && p !in files ensures InPlan(plan, |plan|, p) {
      DiskAfterKeys(disk, plan, m, p);
      if p !in disk { var i :| 0 <= i < m && plan[i].path == p; }
    }
  }

  /** Two trees from which the recovery gives the same writer are reopened alike. */
  lemma {:induction false} SameRecoveryReopens(b: Binding, disk: map<Path, Bytes>, dirs: set<Path>,
      crashed: map<Path, Bytes>, made: set<Path>, plan: Plan)
    requires ReopenPlan(b, disk, dirs, {}, plan).Ok? && ManifestOnDisk(FromRecords(b.files), crashed)
    requires Authorized(FromRecords(b.files), crashed, made, {}, plan)
    requires Recover(Resumed(b, crashed, made), crashed.Keys, plan) == Recover(Resumed(b, disk, dirs), disk.Keys, plan)
    ensures ReopenPlan(b, crashed, made, {}, plan) == ReopenPlan(b, disk, dirs, {}, plan)
  {
  }

  /** What a tree that reopens has passed, before and after its recovery. */
  lemma {:induction false} ReopenedPassed(b: Binding, disk: map<Path, Bytes>, dirs: set<Path>, plan: Plan)
    requires ReopenPlan(b, disk, dirs, {}, plan).Ok?
    ensures var files := FromRecords(b.files);
      PlanOk(files, plan) && ManifestOnDisk(files, disk) && Authorized(files, disk, dirs, {}, plan)
    ensures Recover(Resumed(b, disk, dirs), disk.Keys, plan).Ok?
    ensures AuditPasses(DiskAfter(disk, plan, |plan|).Keys, DirsAfter(dirs, plan, |plan|), 1)
  {
    RecoverShape(Resumed(b, disk, dirs), plan, |plan|);
  }

  lemma {:induction false} CrashedRecovers(b: Binding, disk: map<Path, Bytes>, dirs: set<Path>, plan: Plan, m: nat,
      made: set<Path>)
    requires PlanOk(FromRecords(b.files), plan) && m <= |plan| && LeftDirs(dirs, plan, made)
    requires Recover(Resumed(b, disk, dirs), disk.Keys, plan).Ok?
    ensures Recover(Resumed(b, DiskAfter(disk, plan, m), made), DiskAfter(disk, plan, m).Keys, plan)
         == Recover(Resumed(b, disk, dirs), disk.Keys, plan)
  {
    var w := Resumed(b, disk, dirs);
    RestartFollows(w, plan, m, made);
    assert w.(disk := DiskAfter(disk, plan, m), dirs := made) == Resumed(b, DiskAfter(disk, plan, m), made);
  }

  /**
   Reopening is restartable: after a crash that left the first `m` recovery files and any
   of the directories on disk, the same binding and plan are accepted again and end in
   the same writer. A staged temporary left by a crash inside a write is not: the audit
   refuses the tree. So reopening succeeds exactly when no temporary was left behind.
   */
  lemma {:induction false} ReopenAfterCrashIff(b: Binding, disk: map<Path, Bytes>, dirs: set<Path>, plan: Plan, m: nat,
      made: set<Path>, residue: set<Path>)
    requires ReopenPlan(b, disk, dirs, {}, plan).Ok? && m <= |plan| && LeftDirs(dirs, plan, made)
    ensures ReopenPlan(b, DiskAfter(disk, plan, m), made, residue, plan).Ok? <==> residue == {}
    ensures ReopenPlan(b, DiskAfter(disk, plan, m), made, {}, plan) == ReopenPlan(b, disk, dirs, {}, plan)
  {
    var crashed := DiskAfter(disk, plan, m);
    ReopenedPassed(b, disk, dirs, plan);
    CrashedTreeAuthorized(FromRecords(b.files), disk, dirs, plan, m, made);
    CrashedRecovers(b, disk, dirs, plan, m, made);
    SameRecoveryReopens(b, disk, dirs, crashed, made, plan);
  }

  lemma {:induction false} BoundaryIsAuthorized(w: Writer)
    requires AtBoundary(w)
    ensures ManifestOnDisk(w.files, w.disk) && Authorized(w.files, w.disk, w.dirs, {}, [])
  {
  }

  /** Reopening from a live writer's own binding and directory gives that writer back. */
  lemma {:induction false} ReopenReproduces(w: Writer, b: Binding)
    requires Accounted(w) && Binds(w, b)
    ensures ReopenPlan(b, w.disk, w.dirs, {}, []) == Ok(w)
  {
    LiveBindingIsValid(w, b);
    RecordsCounted(b.files);
    BoundaryIsAuthorized(w);
    assert Resumed(b, w.disk, w.dirs) == w;
    assert Recover(w, w.disk.Keys, []) == Ok(w);
  }

  /** A checked binding over an authorized tree is a writer whose accounting is in order. */
  lemma {:induction false} ResumedAccounted(b: Binding, disk: map<Path, Bytes>, dirs: set<Path>, plan: Plan)
    requires BindingOk(b) && ManifestOnDisk(FromRecords(b.files), disk) && AllValid(plan)
    requires Authorized(FromRecords(b.files), disk, dirs, {}, plan)
    ensures Accounted(Resumed(b, disk, dirs))
  {
    var files := FromRecords(b.files);
    RecordsCounted(b.files);
    RecordsMembers(b.files);
    forall p | p in files ensures RecordOk(p, files[p]) {
      var i :| 0 <= i < |b.files| && b.files[i] == files[p];
    }
    forall p | p in disk ensures p != [] {
      if p !in files { var i :| 0 <= i < |plan| && plan[i].path == p; } else { assert RecordOk(p, files[p]); }
    }
  }

  /** A reopened writer starts with its accounting in order. */
  lemma {:induction false} ReopenAccounted(b: Binding, disk: map<Path, Bytes>, dirs: set<Path>, plan: Plan)
    requires ReopenPlan(b, disk, dirs, {}, plan).Ok?
    ensures Accounted(ReopenPlan(b, disk, dirs, {}, plan).value)
  {
    ResumedAccounted(b, disk, dirs, plan);
    RecoverAccounted(Resumed(b, disk, dirs), plan);
  }

  lemma {:induction false} RecoverAccounted(w: Writer, plan: Plan)
    requires Accounted(w) && AllValid(plan) && Recover(w, w.disk.Keys, plan).Ok?
    ensures Accounted(Recover(w, w.disk.Keys, plan).value)
  {
    forall v, i: nat | i < |plan| && Accounted(v) && RecoverOne(v, w.disk.Keys, plan[i]).Ok?
      ensures Accounted(RecoverOne(v, w.disk.Keys, plan[i]).value)
    {
      WriteAccounted(v, plan[i].path, plan[i].contents, plan[i].disposition, NoWriteFault);
    }
    RecoverKeeps(RecoverOne, w, w.disk.Keys, plan, |plan|, (v: Writer, i: nat) => Accounted(v));
  }
}
