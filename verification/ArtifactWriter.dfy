/**
 One artifact run being written: its manifest, byte accounting, scratch
 reservations, poisoned appends, and the run directory they describe.

 Every operation takes the fault it runs into, so a sequence of operations covers
 every way the file system can fail under the writer. A digest is modelled by the
 bytes it was computed from.
 */
module ArtifactWriter {
  import opened Wrappers
  import opened ArtifactPaths

  const MAX_ARTIFACT_FILE_BYTES: nat := 64 * 1024 * 1024
  const MAX_ARTIFACT_TOTAL_BYTES: nat := 256 * 1024 * 1024
  const MAX_ARTIFACT_FILES := 4096
  const MAX_ARTIFACT_SCRATCH_DIRECTORIES := 64
  const MAX_ARTIFACT_SCRATCH_NAME_BYTES := 128

  type Bytes = string

  datatype Disposition = Publishable | PrivateEvidence

  datatype FileRecord = FileRecord(path: Path, bytes: nat, digest: Bytes, disposition: Disposition)

  datatype ScratchKind = Generic | SupervisorInvocation

  /**
   `residue` holds the targets that have a staged temporary file left beside them, `dirs` the
   directories that have been made, whether a file got into them or not.
   */
  datatype Writer = Writer(
    files: map<Path, FileRecord>,
    scratches: map<string, ScratchKind>,
    poisoned: set<Path>,
    total: nat,
    disk: map<Path, Bytes>,
    residue: set<Path>,
    dirs: set<Path>)

  const Fresh: Writer := Writer(map[], map[], {}, 0, map[], {}, {})

  datatype WriterError =
    | LockLost | BadPath | ScratchOverlap | FileTooLarge | Accounting | RunTooLarge | DispositionChange
    | TooManyFiles | Poisoned | DigestMismatch | Adoption | Io | BadScratch | TooManyScratches | NotAtBoundary
    | NotFinalReport | TreeTooLarge | MarkerTooLarge

  datatype Out<+T> = Out(writer: Writer, result: Result<T, WriterError>)

  predicate OverlapsScratch(w: Writer, p: Path) { p != [] && p[0] in w.scratches }

  /** Two different paths of which one would have to be a directory above the other. */
  predicate Conflicts(p: Path, q: Path) { p != q && (Under(p, q) || Under(q, p)) }

  /** A file where a directory is needed, or a directory where the file should go. */
  predicate Blocked(disk: map<Path, Bytes>, p: Path) {
    exists q {:trigger Conflicts(p, q)} | q in disk :: Conflicts(p, q)
  }

  // ---- writing a whole file ----

  /** `BeforeStage(n)` fails once the directories of the path above depth `n` are made. */
  datatype WriteFault = NoWriteFault | LockLostFirst | BeforeStage(made: nat) | AfterStage | AfterCommit | LockLostLast

  /** Every check a write makes before it touches the file system. */
  function WriteRefusal(w: Writer, p: Path, contents: Bytes, disposition: Disposition): Option<WriterError> {
    if OverlapsScratch(w, p) then Some(ScratchOverlap)
    else if |contents| > MAX_ARTIFACT_FILE_BYTES then Some(FileTooLarge)
    else
      var previous := if p in w.files then w.files[p].bytes else 0;
      if w.total < previous then Some(Accounting)
      else if w.total - previous + |contents| > MAX_ARTIFACT_TOTAL_BYTES then Some(RunTooLarge)
      else if p in w.files && w.files[p].disposition != disposition then Some(DispositionChange)
      else if p !in w.files && |w.files| >= MAX_ARTIFACT_FILES then Some(TooManyFiles)
      else if Blocked(w.disk, p) || p in w.dirs then Some(Io)
      else None
  }

  /** The writer with directories made for the path. */
  function WithDirs(w: Writer, p: Path, depth: nat): Writer { w.(dirs := w.dirs + Above(p, depth)) }

  function Prepared(w: Writer, p: Path): Writer { w.(dirs := w.dirs + Parents(p)) }

  /** The write itself: make directories, scavenge old temporaries, stage, replace atomically, read back, manifest. */
  function WriteAt(w: Writer, p: Path, contents: Bytes, disposition: Disposition, fault: WriteFault): Out<FileRecord> {
    var refusal := WriteRefusal(w, p, contents, disposition);
    if refusal.Some? then Out(w, Err(refusal.value))
    else if fault.BeforeStage? then Out(WithDirs(w, p, fault.made), Err(Io))
    else if fault.AfterStage? then Out(Prepared(w, p).(residue := w.residue + {p}), Err(Io))
    else
      var committed := Prepared(w, p).(disk := w.disk[p := contents], residue := w.residue - {p});
      if fault.AfterCommit? then Out(committed, Err(Io))
      else
        var record := FileRecord(p, |contents|, contents, disposition);
        var previous := if p in w.files then w.files[p].bytes else 0;
        Out(committed.(files := w.files[p := record], total := w.total - previous + |contents|),
            if fault.LockLostLast? then Err(LockLost) else Ok(record))
  }

  function WriteBytes(w: Writer, raw: RawPath, contents: Bytes, disposition: Disposition,
      fault: WriteFault): Out<FileRecord> {
    if fault.LockLostFirst? then Out(w, Err(LockLost))
    else if ValidatePath(raw).Err? then Out(w, Err(BadPath))
    else WriteAt(w, ValidatePath(raw).value, contents, disposition, fault)
  }

  // ---- appending ----

  /** `Torn(k, ..)` fails after k bytes of the append reached the file. */
  datatype AppendFault =
    | NoAppendFault | AppendLockLostFirst | BeforeOpen(made: nat) | AfterOpen | Torn(written: nat, recovery: Recovery)
    | AppendLockLostLast

  /** Recovery may itself fail after putting back some of the missing suffix. */
  datatype Recovery = Recovers | RecoveryFails(restored: nat)

  function Take(s: Bytes, n: nat): Bytes { if n <= |s| then s[..n] else s }

  function AppendRefusal(w: Writer, p: Path, appended: nat, disposition: Disposition): Option<WriterError> {
    if p in w.poisoned then Some(Poisoned)
    else if OverlapsScratch(w, p) then Some(ScratchOverlap)
    else if p in w.files && w.files[p].disposition != disposition then Some(DispositionChange)
    else if p !in w.files && |w.files| >= MAX_ARTIFACT_FILES then Some(TooManyFiles)
    else if (if p in w.files then w.files[p].bytes else 0) + appended > MAX_ARTIFACT_FILE_BYTES then Some(FileTooLarge)
    else if w.total + appended > MAX_ARTIFACT_TOTAL_BYTES then Some(RunTooLarge)
    else if p in w.files && !(p in w.disk && w.disk[p] == w.files[p].digest && |w.disk[p]| == w.files[p].bytes) then
      Some(DigestMismatch)
    else if Blocked(w.disk, p) || p in w.dirs then Some(Io)
    else if p !in w.files && p in w.disk then Some(Adoption)
    else None
  }

  /** Completes the attempted append from what is on disk, or fails. */
  function Reconcile(w: Writer, p: Path, previous: Bytes, contents: Bytes, disposition: Disposition,
      recovery: Recovery): Out<()>
    requires p in w.disk
  {
    var observed := w.disk[p];
    if !(previous <= observed) then Out(w, Err(DigestMismatch))
    else
      var appended := observed[|previous|..];
      if !(appended <= contents) then Out(w, Err(DigestMismatch))
      else
        var missing := contents[|appended|..];
        match recovery
        case RecoveryFails(restored) =>
          Out(w.(disk := w.disk[p := observed + Take(missing, restored)]), Err(Io))
        case Recovers =>
          var completed := observed + missing;
          if completed != previous + contents then Out(w.(disk := w.disk[p := completed]), Err(DigestMismatch))
          else
            var old_ := if p in w.files then w.files[p].bytes else 0;
            Out(w.(disk := w.disk[p := completed],
                   files := w.files[p := FileRecord(p, old_ + |contents|, completed, disposition)],
                   total := w.total + |contents|,
                   poisoned := w.poisoned - {p}),
                Ok(()))
  }

  /** The bytes an append starts from. */
  function Before(w: Writer, p: Path): Bytes { if p in w.files && p in w.disk then w.disk[p] else [] }

  /** A torn append is completed, or its path is poisoned. */
  function TornAppend(w: Writer, p: Path, contents: Bytes, disposition: Disposition, written: nat,
      recovery: Recovery): Writer {
    var torn := w.(disk := w.disk[p := Before(w, p) + Take(contents, written)]);
    var recovered := Reconcile(torn, p, Before(w, p), contents, disposition, recovery);
    if recovered.result.Ok? then recovered.writer
    else recovered.writer.(poisoned := recovered.writer.poisoned + {p})
  }

  /** The append once its path is known to be valid and the lock held. */
  function AppendAt(w: Writer, p: Path, contents: Bytes, disposition: Disposition,
      fault: AppendFault): Out<FileRecord> {
    var refusal := AppendRefusal(w, p, |contents|, disposition);
    if refusal.Some? then Out(w, Err(refusal.value))
    else if fault.BeforeOpen? then Out(WithDirs(w, p, fault.made), Err(Io))
    else
      var previous, ready := Before(w, p), Prepared(w, p);
      if fault.AfterOpen? then Out(ready.(disk := w.disk[p := previous]), Err(Io))
      else if fault.Torn? then Out(TornAppend(ready, p, contents, disposition, fault.written, fault.recovery), Err(Io))
      else
        var old_ := if p in w.files then w.files[p].bytes else 0;
        var record := FileRecord(p, old_ + |contents|, previous + contents, disposition);
        Out(ready.(disk := w.disk[p := previous + contents], files := w.files[p := record],
                   total := w.total + |contents|),
            if fault.AppendLockLostLast? then Err(LockLost) else Ok(record))
  }

  function AppendBytes(w: Writer, raw: RawPath, contents: Bytes, disposition: Disposition,
      fault: AppendFault): Out<FileRecord> {
    if fault.AppendLockLostFirst? then Out(w, Err(LockLost))
    else if ValidatePath(raw).Err? then Out(w, Err(BadPath))
    else AppendAt(w, ValidatePath(raw).value, contents, disposition, fault)
  }

  // ---- scratch directories ----

  predicate ValidScratchName(name: string) {
    && 0 < |name| <= MAX_ARTIFACT_SCRATCH_NAME_BYTES && Alphanumeric(name[0])
    && forall i | 0 <= i < |name| :: Alphanumeric(name[i]) || name[i] in {'.', '_', '-'}
  }

  predicate Alphanumeric(c: char) { 'a' <= c <= 'z' || 'A' <= c <= 'Z' || '0' <= c <= '9' }

  /** `reserved` says whether the directory could be created; `kept` whether the lock was still ours. */
  function CreateScratch(w: Writer, name: string, kind: ScratchKind, reserved: bool, kept: bool): Out<()> {
    if !ValidScratchName(name) || name in w.scratches then Out(w, Err(BadScratch))
    else if |w.scratches| >= MAX_ARTIFACT_SCRATCH_DIRECTORIES then Out(w, Err(TooManyScratches))
    else if exists p | p in w.files :: Under(p, [name]) then Out(w, Err(ScratchOverlap))
    else if (exists p | p in w.disk :: Under(p, [name])) || [name] in w.dirs || !reserved then Out(w, Err(Io))
    else Out(w.(scratches := w.scratches[name := kind]), if kept then Ok(()) else Err(LockLost))
  }

  function DiscardScratch(w: Writer, name: string, removed: bool): Out<()> {
    if name !in w.scratches then Out(w, Err(BadScratch))
    else if !removed then Out(w, Err(Io))
    else Out(w.(scratches := w.scratches - {name}), Ok(()))
  }

  // ---- runs of operations ----

  datatype Op =
    | Write(raw: RawPath, contents: Bytes, disposition: Disposition, wfault: WriteFault)
    | AppendLine(raw: RawPath, line: Bytes, disposition: Disposition, afault: AppendFault)
    | Create(name: string, kind: ScratchKind, reserved: bool, kept: bool)
    | Discard(name: string, removed: bool)

  function Apply(w: Writer, op: Op): Writer {
    match op
    case Write(raw, contents, disposition, fault) => WriteBytes(w, raw, contents, disposition, fault).writer
    case AppendLine(raw, line, disposition, fault) => AppendBytes(w, raw, line + "\n", disposition, fault).writer
    case Create(name, kind, reserved, kept) => CreateScratch(w, name, kind, reserved, kept).writer
    case Discard(name, removed) => DiscardScratch(w, name, removed).writer
  }

  function After(w: Writer, ops: seq<Op>): Writer {
    if ops == [] then w else Apply(After(w, ops[..|ops| - 1]), ops[|ops| - 1])
  }

  // ---- byte accounting ----

  ghost function SumOver(m: map<Path, FileRecord>, f: FileRecord -> nat): nat {
    if m == map[] then 0
    else
      var p :| p in m;
      f(m[p]) + SumOver(m - {p}, f)
  }

  function Size(r: FileRecord): nat { r.bytes }

  ghost function SumBytes(m: map<Path, FileRecord>): nat { SumOver(m, Size) }

  /** Any file may be counted first. */
  lemma {:induction false} SumSplit(m: map<Path, FileRecord>, f: FileRecord -> nat, p: Path)
    requires p in m
    ensures SumOver(m, f) == f(m[p]) + SumOver(m - {p}, f)
    decreases m
  {
    var q :| q in m && SumOver(m, f) == f(m[q]) + SumOver(m - {q}, f);
    if q != p {
      SumSplit(m - {q}, f, p);
      SumSplit(m - {p}, f, q);
      assert m - {q} - {p} == m - {p} - {q};
    }
  }

  lemma {:induction false} SumUpdate(m: map<Path, FileRecord>, f: FileRecord -> nat, p: Path, r: FileRecord)
    ensures SumOver(m[p := r], f) == SumOver(m, f) - (if p in m then f(m[p]) else 0) + f(r)
  {
    SumSplit(m[p := r], f, p);
    assert m[p := r] - {p} == m - {p};
    if p in m { SumSplit(m, f, p); } else { assert m - {p} == m; }
  }

  /** More files that each weigh no less weigh no less together. */
  lemma {:induction false} SumGrows(m: map<Path, FileRecord>, n: map<Path, FileRecord>, f: FileRecord -> nat)
    requires m.Keys <= n.Keys && forall p | p in m :: f(m[p]) <= f(n[p])
    ensures SumOver(m, f) <= SumOver(n, f)
    decreases m
  {
    if m != map[] {
      var p :| p in m;
      SumSplit(m, f, p);
      SumSplit(n, f, p);
      SumGrows(m - {p}, n - {p}, f);
    }
  }

  ghost predicate RecordOk(p: Path, r: FileRecord) {
    r.path == p && ValidPath(p) && r.bytes == |r.digest| && r.bytes <= MAX_ARTIFACT_FILE_BYTES
  }

  ghost predicate ManifestOk(files: map<Path, FileRecord>) {
    forall p | p in files :: RecordOk(p, files[p])
  }

  /** None of the paths lies under an outstanding scratch. */
  ghost predicate Clear(scratches: map<string, ScratchKind>, paths: set<Path>) {
    forall p | p in paths :: p != [] && p[0] !in scratches
  }

  /** The writer's accounting: totals, limits, and no artifact under an outstanding scratch. */
  ghost predicate Accounted(w: Writer) {
    && w.total == SumBytes(w.files) && w.total <= MAX_ARTIFACT_TOTAL_BYTES
    && |w.files| <= MAX_ARTIFACT_FILES && |w.scratches| <= MAX_ARTIFACT_SCRATCH_DIRECTORIES
    && ManifestOk(w.files) && Clear(w.scratches, w.files.Keys) && Clear(w.scratches, w.disk.Keys)
  }

  lemma {:induction false} InsertSize<V>(m: map<Path, V>, p: Path, v: V)
    ensures |m[p := v]| == if p in m then |m| else |m| + 1
  {
    assert m[p := v].Keys == m.Keys + {p};
    assert |m.Keys| == |m| && |m[p := v].Keys| == |m[p := v]|;
  }

  /** Manifesting one file under the limits keeps the accounting. */
  lemma {:induction false} InsertAccounted(w: Writer, p: Path, r: FileRecord, w': Writer)
    requires Accounted(w) && RecordOk(p, r) && !OverlapsScratch(w, p)
    requires p !in w.files ==> |w.files| < MAX_ARTIFACT_FILES
    requires w'.files == w.files[p := r] && w'.scratches == w.scratches && w'.disk.Keys <= w.disk.Keys + {p}
    requires w'.total == w.total - (if p in w.files then w.files[p].bytes else 0) + r.bytes
    requires w'.total <= MAX_ARTIFACT_TOTAL_BYTES
    ensures Accounted(w')
  {
    SumUpdate(w.files, Size, p, r);
    InsertSize(w.files, p, r);
    ManifestInsert(w.files, p, r);
    ClearMore(w.scratches, w.files.Keys, p, w'.files.Keys);
    ClearMore(w.scratches, w.disk.Keys, p, w'.disk.Keys);
  }

  lemma {:induction false} ManifestInsert(files: map<Path, FileRecord>, p: Path, r: FileRecord)
    requires ManifestOk(files) && RecordOk(p, r)
    ensures ManifestOk(files[p := r])
  {
  }

  lemma {:induction false} ClearMore(scratches: map<string, ScratchKind>, paths: set<Path>, p: Path, more: set<Path>)
    requires Clear(scratches, paths) && p != [] && p[0] !in scratches && more <= paths + {p}
    ensures Clear(scratches, more)
  {
  }

  lemma {:induction false} WriteAccounted(w: Writer, p: Path, contents: Bytes, disposition: Disposition,
      fault: WriteFault)
    requires Accounted(w) && ValidPath(p)
    ensures Accounted(WriteAt(w, p, contents, disposition, fault).writer)
  {
    var w' := WriteAt(w, p, contents, disposition, fault).writer;
    if w' != w && !fault.BeforeStage? && !fault.AfterStage? && !fault.AfterCommit? {
      InsertAccounted(w, p, FileRecord(p, |contents|, contents, disposition), w');
    }
  }

  /** The path holds its earlier bytes and a prefix of the append. */
  ghost predicate TornAt(w: Writer, p: Path, previous: Bytes, contents: Bytes) {
    p in w.disk && exists k: nat :: w.disk[p] == previous + Take(contents, k)
  }

  /** The writer once the whole append is on disk and in the manifest. */
  function Completed(w: Writer, p: Path, previous: Bytes, contents: Bytes, disposition: Disposition): Writer {
    var old_ := if p in w.files then w.files[p].bytes else 0;
    w.(disk := w.disk[p := previous + contents],
       files := w.files[p := FileRecord(p, old_ + |contents|, previous + contents, disposition)],
       total := w.total + |contents|)
  }

  /** Recovery of a torn append ends where the append itself would have. */
  lemma {:induction false} ReconcileCompletes(w: Writer, p: Path, previous: Bytes, contents: Bytes,
      disposition: Disposition, k: nat)
    requires p in w.disk && w.disk[p] == previous + Take(contents, k) && p !in w.poisoned
    ensures Reconcile(w, p, previous, contents, disposition, Recovers) ==
            Out(Completed(w, p, previous, contents, disposition), Ok(()))
  {
    var observed := w.disk[p];
    var appended := observed[|previous|..];
    assert appended == Take(contents, k);
    assert observed + contents[|appended|..] == previous + contents;
    assert w.poisoned - {p} == w.poisoned;
  }

  /** A failed recovery leaves the earlier bytes and some prefix of the append, nothing else. */
  lemma {:induction false} ReconcileFails(w: Writer, p: Path, previous: Bytes, contents: Bytes,
      disposition: Disposition, k: nat, restored: nat)
    returns (n: nat)
    requires p in w.disk && w.disk[p] == previous + Take(contents, k)
    ensures Reconcile(w, p, previous, contents, disposition, RecoveryFails(restored)) ==
            Out(w.(disk := w.disk[p := previous + Take(contents, n)]), Err(Io))
  {
    var observed := w.disk[p];
    var appended := observed[|previous|..];
    assert appended == Take(contents, k);
    var missing := contents[|appended|..];
    n := |appended| + |Take(missing, restored)|;
    assert observed + Take(missing, restored) == previous + Take(contents, n);
  }

  /** Both ends of a recovery, from any torn prefix. */
  lemma {:induction false} ReconcileOutcome(w: Writer, p: Path, previous: Bytes, contents: Bytes,
      disposition: Disposition, recovery: Recovery)
    requires p in w.disk
    ensures TornAt(w, p, previous, contents) ==>
      var out := Reconcile(w, p, previous, contents, disposition, recovery);
      if recovery.Recovers? then p !in w.poisoned ==>
        out == Out(Completed(w, p, previous, contents, disposition), Ok(()))
      else out.result.Err? && out.writer == w.(disk := out.writer.disk) && TornAt(out.writer, p, previous, contents)
  {
    if TornAt(w, p, previous, contents) {
      var k: nat :| w.disk[p] == previous + Take(contents, k);
      match recovery
      case Recovers => if p !in w.poisoned { ReconcileCompletes(w, p, previous, contents, disposition, k); }
      case RecoveryFails(restored) => var n := ReconcileFails(w, p, previous, contents, disposition, k, restored);
    }
  }

  /** The writer after an append that took effect. */
  function Appended(w: Writer, p: Path, contents: Bytes, disposition: Disposition): Writer {
    Completed(Prepared(w, p), p, Before(w, p), contents, disposition)
  }

  lemma {:induction false} TornRecovers(w: Writer, p: Path, contents: Bytes, disposition: Disposition, k: nat)
    requires p !in w.poisoned
    ensures TornAppend(Prepared(w, p), p, contents, disposition, k, Recovers) == Appended(w, p, contents, disposition)
  {
    var previous := Before(w, p);
    var torn := Prepared(w, p).(disk := w.disk[p := previous + Take(contents, k)]);
    ReconcileCompletes(torn, p, previous, contents, disposition, k);
    assert torn.disk[p := previous + contents] == w.disk[p := previous + contents];
  }

  lemma {:induction false} SuccessAppends(w: Writer, p: Path, contents: Bytes, disposition: Disposition)
    requires AppendRefusal(w, p, |contents|, disposition).None?
    ensures AppendAt(w, p, contents, disposition, NoAppendFault).writer == Appended(w, p, contents, disposition)
  {
  }

  /** A recovered append leaves the same writer and the same disk as one that never failed. */
  lemma {:induction false} RecoveredEqualsSucceeded(w: Writer, p: Path, contents: Bytes, disposition: Disposition,
      k: nat)
    ensures AppendAt(w, p, contents, disposition, Torn(k, Recovers)).writer
         == AppendAt(w, p, contents, disposition, NoAppendFault).writer
  {
    if AppendRefusal(w, p, |contents|, disposition).None? {
      TornRecovers(w, p, contents, disposition, k);
      SuccessAppends(w, p, contents, disposition);
    }
  }

  function PoisonedAppend(w: Writer, p: Path, contents: Bytes, n: nat): Writer {
    Prepared(w, p).(disk := w.disk[p := Before(w, p) + Take(contents, n)], poisoned := w.poisoned + {p})
  }

  lemma {:induction false} TornPoisons(w: Writer, p: Path, contents: Bytes, disposition: Disposition, k: nat,
      restored: nat) returns (n: nat)
    ensures TornAppend(Prepared(w, p), p, contents, disposition, k, RecoveryFails(restored)) ==
            PoisonedAppend(w, p, contents, n)
  {
    var previous := Before(w, p);
    var torn := Prepared(w, p).(disk := w.disk[p := previous + Take(contents, k)]);
    n := ReconcileFails(torn, p, previous, contents, disposition, k, restored);
    assert torn.disk[p := previous + Take(contents, n)] == w.disk[p := previous + Take(contents, n)];
  }

  /** Nothing but directories of the path has been added. */
  ghost predicate OnlyDirs(w: Writer, p: Path, w': Writer) {
    w' == w.(dirs := w'.dirs) && w.dirs <= w'.dirs <= w.dirs + Parents(p)
  }

  /**
   The four ways an append can end: at most directories made; a new empty file left behind;
   a poisoned path holding the old bytes and a prefix of the new; or the append.
   */
  ghost predicate AppendEnds(w: Writer, p: Path, contents: Bytes, disposition: Disposition, w': Writer) {
    || w' == w
    || (&& AppendRefusal(w, p, |contents|, disposition).None?
        && (|| OnlyDirs(w, p, w')
            || w' == Prepared(w, p).(disk := w.disk[p := Before(w, p)])
            || (exists n: nat :: w' == PoisonedAppend(w, p, contents, n))
            || w' == Appended(w, p, contents, disposition)))
  }

  lemma {:induction false} AppendOutcome(w: Writer, p: Path, contents: Bytes, disposition: Disposition,
      fault: AppendFault)
    ensures AppendEnds(w, p, contents, disposition, AppendAt(w, p, contents, disposition, fault).writer)
  {
    if AppendRefusal(w, p, |contents|, disposition).None? {
      match fault
      case Torn(k, Recovers) => TornRecovers(w, p, contents, disposition, k);
      case Torn(k, RecoveryFails(restored)) => var n := TornPoisons(w, p, contents, disposition, k, restored);
      case _ =>
    }
  }

  /**
   The four ways a write can end: at most directories made; a temporary left behind; replaced but not
   manifested; or written.
   */
  ghost predicate WriteEnds(w: Writer, p: Path, contents: Bytes, disposition: Disposition, w': Writer) {
    || w' == w
    || (&& WriteRefusal(w, p, contents, disposition).None?
        && (|| OnlyDirs(w, p, w')
            || w' == Prepared(w, p).(residue := w.residue + {p})
            || w' == Replaced(w, p, contents)
            || w' == Written(w, p, contents, disposition)))
  }

  function Replaced(w: Writer, p: Path, contents: Bytes): Writer {
    Prepared(w, p).(disk := w.disk[p := contents], residue := w.residue - {p})
  }

  /** The writer after a write that took effect. */
  function Written(w: Writer, p: Path, contents: Bytes, disposition: Disposition): Writer
    requires WriteRefusal(w, p, contents, disposition).None?
  {
    Replaced(w, p, contents).(
      files := w.files[p := FileRecord(p, |contents|, contents, disposition)],
      total := w.total - (if p in w.files then w.files[p].bytes else 0) + |contents|)
  }

  lemma {:induction false} WriteOutcome(w: Writer, p: Path, contents: Bytes, disposition: Disposition,
      fault: WriteFault)
    ensures WriteEnds(w, p, contents, disposition, WriteAt(w, p, contents, disposition, fault).writer)
  {
  }

  /** All that one operation can do to a writer. */
  ghost predicate Ends(w: Writer, op: Op, w': Writer) {
    match op
    case Write(raw, contents, disposition, _) =>
      w' == w || (ValidatePath(raw).Ok? && WriteEnds(w, ValidatePath(raw).value, contents, disposition, w'))
    case AppendLine(raw, line, disposition, _) =>
      w' == w || (ValidatePath(raw).Ok? && AppendEnds(w, ValidatePath(raw).value, line + "\n", disposition, w'))
    case Create(_, _, _, _) => w' == w.(scratches := w'.scratches)
    case Discard(_, _) => w' == w.(scratches := w'.scratches)
  }

  lemma {:induction false} ApplyEnds(w: Writer, op: Op)
    ensures Ends(w, op, Apply(w, op))
  {
    match op
    case Write(raw, contents, disposition, fault) =>
      if ValidatePath(raw).Ok? { WriteOutcome(w, ValidatePath(raw).value, contents, disposition, fault); }
    case AppendLine(raw, line, disposition, fault) =>
      if ValidatePath(raw).Ok? { AppendOutcome(w, ValidatePath(raw).value, line + "\n", disposition, fault); }
    case Create(_, _, _, _) =>
    case Discard(_, _) =>
  }

  lemma {:induction false} AppendedAccounted(w: Writer, p: Path, contents: Bytes, disposition: Disposition)
    requires Accounted(w) && ValidPath(p) && AppendRefusal(w, p, |contents|, disposition).None?
    ensures Accounted(Appended(w, p, contents, disposition))
  {
    var w' := Appended(w, p, contents, disposition);
    InsertAccounted(w, p, w'.files[p], w');
  }

  /** Touching one file's bytes outside every scratch keeps the accounting. */
  lemma {:induction false} DiskAccounted(w: Writer, p: Path, b: Bytes, w': Writer)
    requires Accounted(w) && p != [] && !OverlapsScratch(w, p)
    requires w'.files == w.files && w'.scratches == w.scratches && w'.total == w.total && w'.disk == w.disk[p := b]
    ensures Accounted(w')
  {
    ClearMore(w.scratches, w.disk.Keys, p, w'.disk.Keys);
  }

  lemma {:induction false} AppendEndsAccounted(w: Writer, p: Path, contents: Bytes, disposition: Disposition,
      w': Writer)
    requires Accounted(w) && ValidPath(p) && AppendEnds(w, p, contents, disposition, w')
    ensures Accounted(w')
  {
    if w' != w {
      if w' == Appended(w, p, contents, disposition) {
        AppendedAccounted(w, p, contents, disposition);
      } else if w'.disk != w.disk {
        DiskAccounted(w, p, w'.disk[p], w');
      }
    }
  }

  lemma {:induction false} AppendAccounted(w: Writer, p: Path, contents: Bytes, disposition: Disposition,
      fault: AppendFault)
    requires Accounted(w) && ValidPath(p)
    ensures Accounted(AppendAt(w, p, contents, disposition, fault).writer)
  {
    AppendOutcome(w, p, contents, disposition, fault);
    AppendEndsAccounted(w, p, contents, disposition, AppendAt(w, p, contents, disposition, fault).writer);
  }

  lemma {:induction false} ClearOfNewScratch(scratches: map<string, ScratchKind>, name: string, kind: ScratchKind,
      paths: set<Path>)
    requires Clear(scratches, paths) && forall p | p in paths :: !Under(p, [name])
    ensures Clear(scratches[name := kind], paths)
  {
    forall p | p in paths ensures p[0] != name { assert !Under(p, [name]); }
  }

  lemma {:induction false} ScratchAdded(w: Writer, name: string, kind: ScratchKind)
    requires Accounted(w) && |w.scratches| < MAX_ARTIFACT_SCRATCH_DIRECTORIES
    requires (forall p | p in w.files.Keys :: !Under(p, [name])) && forall p | p in w.disk.Keys :: !Under(p, [name])
    ensures Accounted(w.(scratches := w.scratches[name := kind]))
  {
    assert w.scratches[name := kind].Keys == w.scratches.Keys + {name};
    ClearOfNewScratch(w.scratches, name, kind, w.files.Keys);
    ClearOfNewScratch(w.scratches, name, kind, w.disk.Keys);
  }

  lemma {:induction false} ScratchAccounted(w: Writer, name: string, kind: ScratchKind, reserved: bool, kept: bool)
    requires Accounted(w)
    ensures Accounted(CreateScratch(w, name, kind, reserved, kept).writer)
  {
    if CreateScratch(w, name, kind, reserved, kept).writer != w {
      ScratchAdded(w, name, kind);
    }
  }

  lemma {:induction false} ApplyAccounted(w: Writer, op: Op)
    requires Accounted(w)
    ensures Accounted(Apply(w, op))
  {
    match op
    case Write(raw, contents, disposition, fault) =>
      if ValidatePath(raw).Ok? { WriteAccounted(w, ValidatePath(raw).value, contents, disposition, fault); }
    case AppendLine(raw, line, disposition, fault) =>
      if ValidatePath(raw).Ok? { AppendAccounted(w, ValidatePath(raw).value, line + "\n", disposition, fault); }
    case Create(name, kind, reserved, kept) => ScratchAccounted(w, name, kind, reserved, kept);
    case Discard(name, removed) => DiscardAccounted(w, name, removed);
  }

  lemma {:induction false} DiscardAccounted(w: Writer, name: string, removed: bool)
    requires Accounted(w)
    ensures Accounted(DiscardScratch(w, name, removed).writer)
  {
    if name in w.scratches {
      assert |(w.scratches - {name}).Keys| <= |w.scratches.Keys| by {
        assert w.scratches.Keys == (w.scratches - {name}).Keys + {name};
      }
    }
  }

  /** Whatever operations and faults a run goes through, its accounting holds. */
  lemma {:induction false} AccountingHolds(w: Writer, ops: seq<Op>)
    requires Accounted(w)
    ensures Accounted(After(w, ops))
  {
    if ops != [] {
      AccountingHolds(w, ops[..|ops| - 1]);
      ApplyAccounted(After(w, ops[..|ops| - 1]), ops[|ops| - 1]);
    }
  }
}
