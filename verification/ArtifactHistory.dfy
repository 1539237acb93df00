/** What holds of an artifact run after every sequence of operations and faults. */
module ArtifactHistory {
  import opened Wrappers
  import opened Text
  import opened Sequences
  import opened ArtifactPaths
  import opened ArtifactWriter

  // ---- recorded contents ----

  /** Every manifested path that is not poisoned holds exactly its recorded contents. */
  ghost predicate Intact(w: Writer) {
    forall p | p in w.files && p !in w.poisoned :: p in w.disk && w.disk[p] == w.files[p].digest
  }

  /** A write that replaced a manifested file with other bytes and then failed before manifesting them. */
  predicate LateFailure(w: Writer, op: Op) {
    && op.Write? && op.wfault.AfterCommit? && ValidatePath(op.raw).Ok?
    && var p := ValidatePath(op.raw).value;
    && WriteRefusal(w, p, op.contents, op.disposition).None?
    && p in w.files && p !in w.poisoned && op.contents != w.files[p].digest
  }

  lemma {:induction false} AppendKeepsIntact(w: Writer, p: Path, contents: Bytes, disposition: Disposition, w': Writer)
    requires Intact(w) && AppendEnds(w, p, contents, disposition, w')
    ensures Intact(w')
  {
  }

  lemma {:induction false} WriteKeepsIntactIff(w: Writer, p: Path, contents: Bytes, disposition: Disposition,
      fault: WriteFault)
    requires Intact(w)
    ensures Intact(WriteAt(w, p, contents, disposition, fault).writer) <==>
            !(&& fault.AfterCommit? && WriteRefusal(w, p, contents, disposition).None?
              && p in w.files && p !in w.poisoned && contents != w.files[p].digest)
  {
  }

  lemma {:induction false} ApplyKeepsIntactIff(w: Writer, op: Op)
    requires Intact(w)
    ensures Intact(Apply(w, op)) <==> !LateFailure(w, op)
  {
    match op
    case Write(raw, contents, disposition, fault) =>
      if ValidatePath(raw).Ok? { WriteKeepsIntactIff(w, ValidatePath(raw).value, contents, disposition, fault); }
    case AppendLine(raw, line, disposition, fault) =>
      ApplyEnds(w, op);
      if Apply(w, op) != w { AppendKeepsIntact(w, ValidatePath(raw).value, line + "\n", disposition, Apply(w, op)); }
    case Create(_, _, _, _) =>
    case Discard(_, _) =>
  }

  ghost predicate AlwaysIntact(w: Writer, ops: seq<Op>) {
    Intact(After(w, ops)) && (ops != [] ==> AlwaysIntact(w, ops[..|ops| - 1]))
  }

  ghost predicate FailsLateOnce(w: Writer, ops: seq<Op>) {
    ops != [] && (FailsLateOnce(w, ops[..|ops| - 1]) || LateFailure(After(w, ops[..|ops| - 1]), ops[|ops| - 1]))
  }

  /** Recorded contents are on disk after every operation of a run exactly when no write in it fails late. */
  lemma {:induction false} IntactThroughoutIff(w: Writer, ops: seq<Op>)
    requires Intact(w)
    ensures AlwaysIntact(w, ops) <==> !FailsLateOnce(w, ops)
  {
    if ops != [] {
      var init, last := ops[..|ops| - 1], ops[|ops| - 1];
      IntactThroughoutIff(w, init);
      if Intact(After(w, init)) { ApplyKeepsIntactIff(After(w, init), last); }
    }
  }

  /** A write over other bytes of the same file that fails late breaks it, whatever the path and the bytes. */
  lemma {:induction false} LateFailureBreaks(p: Path, first: Bytes, second: Bytes)
    requires ValidPath(p) && first != second
    requires |first| <= MAX_ARTIFACT_FILE_BYTES && |second| <= MAX_ARTIFACT_FILE_BYTES
    ensures var ops := [Write(AsRaw(p), first, Publishable, NoWriteFault),
                        Write(AsRaw(p), second, Publishable, AfterCommit)];
      && LateFailure(After(Fresh, ops[..1]), ops[1]) && Intact(After(Fresh, ops[..1]))
      && !Intact(After(Fresh, ops)) && !AlwaysIntact(Fresh, ops)
  {
    var op1 := Write(AsRaw(p), first, Publishable, NoWriteFault);
    var op2 := Write(AsRaw(p), second, Publishable, AfterCommit);
    ValidIsCanonical(p);
    var w := Written(Fresh, p, first, Publishable);
    assert Apply(Fresh, op1) == w;
    assert After(Fresh, [op1]) == w by { assert [op1][..0] == []; }
    assert [op1, op2][..1] == [op1];
    assert !Blocked(w.disk, p);
    ApplyKeepsIntactIff(w, op2);
  }

  // ---- files built by JSON-line appends ----

  predicate AppendsTo(op: Op, p: Path) { op.AppendLine? && ValidatePath(op.raw) == Ok(p) }

  /** The append passes every check, and reaches the file whole or is completed by recovery. */
  predicate TakesEffect(w: Writer, p: Path, contents: Bytes, disposition: Disposition, fault: AppendFault) {
    && AppendRefusal(w, p, |contents|, disposition).None?
    && (fault.NoAppendFault? || fault.AppendLockLostLast? || (fault.Torn? && fault.recovery.Recovers?))
  }

  lemma {:induction false} EffectiveAppend(w: Writer, p: Path, contents: Bytes, disposition: Disposition,
      fault: AppendFault)
    ensures var out := AppendAt(w, p, contents, disposition, fault);
      && (TakesEffect(w, p, contents, disposition, fault) ==> out.writer == Appended(w, p, contents, disposition))
      && (!TakesEffect(w, p, contents, disposition, fault) ==>
        fault.AppendLockLostFirst? || out.writer.files == w.files)
  {
    if AppendRefusal(w, p, |contents|, disposition).None? {
      match fault
      case Torn(k, Recovers) => TornRecovers(w, p, contents, disposition, k);
      case Torn(k, RecoveryFails(restored)) => var n := TornPoisons(w, p, contents, disposition, k, restored);
      case _ =>
    }
  }

  /**
   A line enters the manifest exactly when its append takes effect. An append that
   returns Ok has taken effect and met no fault; a refused one leaves the writer as
   it was and returns an error.
   */
  lemma {:induction false} AcceptedIff(w: Writer, op: Op, p: Path)
    requires AppendsTo(op, p)
    ensures Apply(w, op).files != w.files <==> TakesEffect(w, p, op.line + "\n", op.disposition, op.afault)
    ensures var r := AppendBytes(w, op.raw, op.line + "\n", op.disposition, op.afault).result;
      && (r.Ok? <==> TakesEffect(w, p, op.line + "\n", op.disposition, op.afault) && op.afault.NoAppendFault?)
      && (AppendRefusal(w, p, |op.line| + 1, op.disposition).Some? ==> r.Err? && Apply(w, op) == w)
  {
    EffectiveAppend(w, p, op.line + "\n", op.disposition, op.afault);
    var appended := Appended(w, p, op.line + "\n", op.disposition);
    assert appended.files[p].bytes == (if p in w.files then w.files[p].bytes else 0) + |op.line| + 1;
  }

  /** The lines that entered the manifest, whatever the append returned. */
  function AcceptedLines(w: Writer, ops: seq<Op>, p: Path): seq<Bytes> {
    if ops == [] then []
    else
      var init, op := ops[..|ops| - 1], ops[|ops| - 1];
      var before := After(w, init);
      if AppendsTo(op, p) && Apply(before, op).files != before.files then AcceptedLines(w, init, p) + [op.line]
      else AcceptedLines(w, init, p)
  }

  /** The path is only ever written by JSON-line appends; compact JSON holds no newline. */
  ghost predicate OnlyAppended(ops: seq<Op>, p: Path) {
    forall op | op in ops ::
      (op.Write? ==> ValidatePath(op.raw) != Ok(p)) && (AppendsTo(op, p) ==> Without(op.line, '\n'))
  }

  ghost predicate HoldsLines(w: Writer, p: Path, ls: seq<Bytes>) {
    && (p in w.files <==> ls != [])
    && (p in w.files ==> w.files[p].digest == Unlines(ls) && w.files[p].bytes == |Unlines(ls)|)
    && (p in w.files && p !in w.poisoned ==> p in w.disk && w.disk[p] == Unlines(ls))
  }

  lemma {:induction false} AppendHoldsLines(w: Writer, p: Path, ls: seq<Bytes>, line: Bytes, disposition: Disposition,
      w': Writer)
    requires HoldsLines(w, p, ls) && AppendEnds(w, p, line + "\n", disposition, w')
    ensures HoldsLines(w', p, if w'.files != w.files then ls + [line] else ls)
  {
    UnlinesSnoc(ls, line);
    if w' == Appended(w, p, line + "\n", disposition) {
      assert w'.files[p].bytes > (if p in w.files then w.files[p].bytes else 0);
    }
  }

  /** The path's entry, its bytes and its poison are as before. */
  ghost predicate Untouched(w: Writer, w': Writer, p: Path) {
    && (p in w'.files <==> p in w.files) && (p in w.files ==> w'.files[p] == w.files[p])
    && (p in w'.disk <==> p in w.disk) && (p in w.disk ==> w'.disk[p] == w.disk[p])
    && (p in w'.poisoned <==> p in w.poisoned)
  }

  lemma {:induction false} OtherPathKept(w: Writer, op: Op, p: Path, w': Writer)
    requires !AppendsTo(op, p) && (op.Write? ==> ValidatePath(op.raw) != Ok(p)) && Ends(w, op, w')
    ensures Untouched(w, w', p)
  {
    if w' != w && op.Write? { WriteElsewhere(w, ValidatePath(op.raw).value, op.contents, op.disposition, w', p); }
    if w' != w && op.AppendLine? {
      AppendElsewhere(w, ValidatePath(op.raw).value, op.line + "\n", op.disposition, w', p);
    }
  }

  lemma {:induction false} WriteElsewhere(w: Writer, q: Path, contents: Bytes, disposition: Disposition, w': Writer,
      p: Path)
    requires WriteEnds(w, q, contents, disposition, w') && p != q
    ensures Untouched(w, w', p)
  {
  }

  lemma {:induction false} AppendElsewhere(w: Writer, q: Path, contents: Bytes, disposition: Disposition, w': Writer,
      p: Path)
    requires AppendEnds(w, q, contents, disposition, w') && p != q
    ensures Untouched(w, w', p)
  {
  }

  lemma {:induction false} UntouchedHoldsLines(w: Writer, w': Writer, p: Path, ls: seq<Bytes>)
    requires HoldsLines(w, p, ls) && Untouched(w, w', p)
    ensures HoldsLines(w', p, ls)
  {
  }

  lemma {:induction false} RunHoldsLines(w: Writer, ls: seq<Bytes>, ops: seq<Op>, p: Path)
    requires HoldsLines(w, p, ls) && OnlyAppended(ops, p)
    ensures HoldsLines(After(w, ops), p, ls + AcceptedLines(w, ops, p))
    ensures forall l | l in AcceptedLines(w, ops, p) :: Without(l, '\n')
  {
    if ops == [] {
      assert ls + AcceptedLines(w, ops, p) == ls;
    } else {
      var init, op := ops[..|ops| - 1], ops[|ops| - 1];
      RunHoldsLines(w, ls, init, p);
      var before, accepted := After(w, init), AcceptedLines(w, init, p);
      var after := Apply(before, op);
      ApplyEnds(before, op);
      if AppendsTo(op, p) {
        AppendHoldsLines(before, p, ls + accepted, op.line, op.disposition, after);
        assert ls + accepted + [op.line] == ls + (accepted + [op.line]);
      } else {
        OtherPathKept(before, op, p, after);
        UntouchedHoldsLines(before, after, p, ls + accepted);
      }
    }
  }

  /**
   Through any faults, a file that starts out as lines, is only appended to and is
   not poisoned splits at its newlines into the lines it had and then exactly the
   accepted ones. A new run starts with no lines at every path.
   */
  lemma {:induction false} JsonLinesSplitBack(w: Writer, ls: seq<Bytes>, ops: seq<Op>, p: Path)
    requires HoldsLines(w, p, ls) && OnlyAppended(ops, p) && forall l | l in ls :: Without(l, '\n')
    ensures var w', all := After(w, ops), ls + AcceptedLines(w, ops, p);
      p in w'.files && p !in w'.poisoned ==> p in w'.disk && Split(w'.disk[p], '\n') == all + [""]
    ensures HoldsLines(Fresh, p, [])
  {
    RunHoldsLines(w, ls, ops, p);
    SplitUnlines(ls + AcceptedLines(w, ops, p));
  }

  // ---- boundaries: resuming and finalizing ----

  /** The directory holds exactly the manifested files with their recorded contents, and nothing else. */
  predicate Exact(w: Writer) {
    && w.residue == {} && w.disk.Keys == w.files.Keys
    && forall p | p in w.files :: w.disk[p] == w.files[p].digest && |w.disk[p]| == w.files[p].bytes
  }

  const MAX_AUDIT_ENTRIES := 2 * MAX_ARTIFACT_FILES + 128

  /** The directories that hold the files. */
  function Directories(paths: set<Path>): set<Path> {
    set p, n | p in paths && 0 < n < |p| :: p[..n]
  }

  function Entries(paths: set<Path>, dirs: set<Path>): nat { |paths| + |dirs + Directories(paths)| }

  /** The audit of a tree counts files and directories, and beside them the lock and later the marker. */
  predicate AuditPasses(paths: set<Path>, dirs: set<Path>, besides: nat) {
    Entries(paths, dirs) + besides <= MAX_AUDIT_ENTRIES
  }

  /** A larger tree has no fewer entries. */
  lemma {:induction false} EntriesMonotone(a: set<Path>, dirs: set<Path>, b: set<Path>, more: set<Path>)
    requires a <= b && dirs <= more
    ensures Entries(a, dirs) <= Entries(b, more)
  {
    SubsetSize(a, b);
    SubsetSize(dirs + Directories(a), more + Directories(b));
  }

  lemma {:induction false} AboveSize(p: Path, depth: nat)
    requires 0 < depth <= |p|
    ensures |Above(p, depth)| == depth - 1 && forall d | d in Above(p, depth) :: |d| < depth
  {
    if depth == 1 {
      assert Above(p, 1) == {};
    } else {
      AboveSize(p, depth - 1);
      assert Above(p, depth) == Above(p, depth - 1) + {p[..depth - 1]};
    }
  }

  /** A lone file makes one entry for each of its components. */
  lemma {:induction false} OneFileEntries(p: Path)
    requires p != []
    ensures Entries({p}, Parents(p)) == |p|
  {
    AboveSize(p, |p|);
    assert Parents(p) + Directories({p}) == Above(p, |p|);
  }

  predicate AtBoundary(w: Writer) {
    w.scratches == map[] && w.poisoned == {} && Exact(w) && AuditPasses(w.disk.Keys, w.dirs, 1)
  }

  // ---- the marker of a finalized run ----

  const MAX_FINALIZATION_BYTES: nat := 512 * 1024

  /** The bytes of a character inside a JSON string. */
  function CharJson(c: char): nat {
    if c in "\"\\\n\r\t" || c == 8 as char || c == 12 as char then 2 else if c < 32 as char then 6 else 1
  }

  function TextJson(s: string): nat {
    if s == "" then 0 else TextJson(s[..|s| - 1]) + CharJson(s[|s| - 1])
  }

  function PathJson(p: Path): nat {
    if p == [] then 0 else PathJson(p[..|p| - 1]) + TextJson(p[|p| - 1]) + (if |p| == 1 then 0 else 1)
  }

  function DispositionName(d: Disposition): string {
    if d.Publishable? then "publishable" else "private_evidence"
  }

  /** The braces, names, quotes, indentation and line ends of one pretty-printed record, and its digest. */
  const RECORD_FRAME := 156

  function RecordJson(r: FileRecord): nat {
    RECORD_FRAME + PathJson(r.path) + |Decimal(r.bytes)| + |DispositionName(r.disposition)|
  }

  function FlagJson(b: bool): nat { if b then 4 else 5 }

  predicate MayPublish(files: map<Path, FileRecord>, publish: bool, hasRevision: bool) {
    publish && hasRevision && forall p | p in files :: files[p].disposition.Publishable?
  }

  /** `head` stands for all of the marker but its two flags and its file records. */
  ghost function MarkerBytes(head: nat, files: map<Path, FileRecord>, publish: bool, hasRevision: bool): nat {
    head + FlagJson(publish) + FlagJson(MayPublish(files, publish, hasRevision)) + SumOver(files, RecordJson)
  }

  /** Whether the run is to be published, has a source revision, and how long the rest of its marker is. */
  datatype Intent = Intent(publish: bool, hasRevision: bool, head: nat)

  ghost predicate MarkerFits(files: map<Path, FileRecord>, intent: Intent) {
    MarkerBytes(intent.head, files, intent.publish, intent.hasRevision) <= MAX_FINALIZATION_BYTES
  }

  datatype Finalization = Finalization(files: map<Path, FileRecord>, publishable: bool)

  ghost function Finalize(w: Writer, report: RawPath, contract: Path,
      intent: Intent): Result<Finalization, WriterError> {
    if w.poisoned != {} then Err(Poisoned)
    else if w.scratches != map[] then Err(NotAtBoundary)
    else if ValidatePath(report) != Ok(contract) then Err(NotFinalReport)
    else if contract !in w.files then Err(NotFinalReport)
    else if !AuditPasses(w.disk.Keys, w.dirs, 1) then Err(TreeTooLarge)
    else if !Exact(w) then Err(DigestMismatch)
    else if !MarkerFits(w.files, intent) then Err(MarkerTooLarge)
    else if !AuditPasses(w.disk.Keys, w.dirs, 2) then Err(TreeTooLarge)
    else Ok(Finalization(w.files, MayPublish(w.files, intent.publish, intent.hasRevision)))
  }

  /** A run whose recorded contents are not on disk is neither resumed nor finalized. */
  lemma {:induction false} BrokenRunIsRefused(w: Writer, report: RawPath, contract: Path, intent: Intent)
    requires !Intact(w)
    ensures !AtBoundary(w) && Finalize(w, report, contract, intent).Err?
  {
  }

  lemma {:induction false} PoisonStays(w: Writer, ops: seq<Op>, p: Path)
    requires p in w.poisoned
    ensures p in After(w, ops).poisoned
  {
    if ops != [] {
      var init, op := ops[..|ops| - 1], ops[|ops| - 1];
      PoisonStays(w, init, p);
      ApplyEnds(After(w, init), op);
      PoisonStep(After(w, init), op, Apply(After(w, init), op), p);
    }
  }

  lemma {:induction false} PoisonStep(w: Writer, op: Op, w': Writer, p: Path)
    requires p in w.poisoned && Ends(w, op, w')
    ensures p in w'.poisoned
  {
  }

  /** Once any path is poisoned, no later state of that writer finalizes or can be resumed. */
  lemma {:induction false} PoisonIsFinal(w: Writer, ops: seq<Op>, report: RawPath, contract: Path, intent: Intent)
    requires w.poisoned != {}
    ensures Finalize(After(w, ops), report, contract, intent).Err?
    ensures !AtBoundary(After(w, ops))
  {
    var p :| p in w.poisoned;
    PoisonStays(w, ops, p);
  }

  /** A manifested file stays manifested, with the disposition it got first. */
  lemma {:induction false} DispositionStays(w: Writer, ops: seq<Op>, p: Path)
    requires p in w.files
    ensures p in After(w, ops).files && After(w, ops).files[p].disposition == w.files[p].disposition
  {
    if ops != [] {
      var init, op := ops[..|ops| - 1], ops[|ops| - 1];
      DispositionStays(w, init, p);
      ApplyEnds(After(w, init), op);
      DispositionStep(After(w, init), op, Apply(After(w, init), op), p);
    }
  }

  lemma {:induction false} DispositionStep(w: Writer, op: Op, w': Writer, p: Path)
    requires p in w.files && Ends(w, op, w')
    ensures p in w'.files && w'.files[p].disposition == w.files[p].disposition
  {
  }
}
