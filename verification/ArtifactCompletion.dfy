/**
 Which unfinished artifact runs can still be finalized.

 Nothing a writer does takes a file or a directory out of the run directory, or
 changes a disposition, so what a run has touched decides whether any further
 operations can bring it to an end.
 */
module ArtifactCompletion {
  import opened Wrappers
  import opened Text
  import opened Sequences
  import opened ArtifactPaths
  import opened ArtifactWriter
  import opened ArtifactHistory
  import opened ArtifactResume
  import opened ArtifactLives

  /** Files that can stand in one tree beside the directories. */
  ghost predicate Tree(paths: set<Path>, dirs: set<Path>) {
    && (forall p | p in paths :: ValidPath(p)) && paths !! dirs
    && forall p, q {:trigger Conflicts(p, q)} | p in paths && q in paths :: !Conflicts(p, q)
  }

  /** The files of the run and the targets with a temporary left beside them. */
  function Touched(w: Writer): set<Path> { w.disk.Keys + w.residue }

  ghost predicate Sound(w: Writer) {
    Accounted(w) && Stored(w) && Tree(w.disk.Keys, w.dirs) && forall p | p in w.residue :: ValidPath(p)
  }

  // ---- what every operation keeps ----

  lemma {:induction false} ParentsConflict(p: Path, d: Path)
    requires d in Parents(p)
    ensures Conflicts(p, d) && d != p
  {
  }

  lemma {:induction false} TreeGrows(disk: map<Path, Bytes>, dirs: set<Path>, p: Path, paths: set<Path>,
      dirs': set<Path>)
    requires Tree(disk.Keys, dirs) && ValidPath(p) && !Blocked(disk, p) && p !in dirs
    requires paths <= disk.Keys + {p} && dirs' <= dirs + Parents(p)
    ensures Tree(paths, dirs')
  {
    forall q | q in disk ensures !Conflicts(p, q) && !Conflicts(q, p) { assert !Conflicts(p, q); }
    forall d | d in Parents(p) ensures d !in paths { ParentsConflict(p, d); }
  }

  /** One path at most is added to the files and temporaries. */
  ghost predicate AddsFile(disk: map<Path, Bytes>, residue: set<Path>, p: Path, disk': map<Path, Bytes>,
      residue': set<Path>) {
    && disk.Keys <= disk'.Keys <= disk.Keys + {p} && disk.Keys + residue <= disk'.Keys + residue'
    && residue' <= residue + {p}
  }

  /** And none but where the tree leaves room for it, with its directories. */
  ghost predicate Adds(w: Writer, p: Path, w': Writer) {
    && AddsFile(w.disk, w.residue, p, w'.disk, w'.residue)
    && w.dirs <= w'.dirs <= w.dirs + Parents(p) && !Blocked(w.disk, p) && p !in w.dirs
  }

  /** The path's directories have been made, and a temporary or contents put there. */
  ghost predicate Placed(w: Writer, p: Path, contents: Bytes, w': Writer) {
    && w'.dirs == w.dirs + Parents(p)
    && (|| (w'.disk == w.disk && w'.residue == w.residue + {p})
        || (w'.disk == w.disk[p := contents] && (w'.residue == w.residue || w'.residue == w.residue - {p})))
  }

  lemma {:induction false} OnlyDirsAdds(w: Writer, p: Path, w': Writer)
    requires OnlyDirs(w, p, w') && !Blocked(w.disk, p) && p !in w.dirs
    ensures Adds(w, p, w')
  {
  }

  lemma {:induction false} PlacedAdds(w: Writer, p: Path, contents: Bytes, w': Writer)
    requires Placed(w, p, contents, w') && !Blocked(w.disk, p) && p !in w.dirs
    ensures Adds(w, p, w')
  {
  }

  lemma {:induction false} WritePlaces(w: Writer, p: Path, contents: Bytes, disposition: Disposition, w': Writer)
    requires WriteEnds(w, p, contents, disposition, w') && w' != w
    ensures OnlyDirs(w, p, w') || Placed(w, p, contents, w')
  {
  }

  lemma {:induction false} AppendPlaces(w: Writer, p: Path, contents: Bytes, disposition: Disposition, w': Writer)
    requires AppendEnds(w, p, contents, disposition, w') && w' != w
    ensures OnlyDirs(w, p, w') || (p in w'.disk && Placed(w, p, w'.disk[p], w'))
  {
  }

  lemma {:induction false} WriteAdds(w: Writer, p: Path, contents: Bytes, disposition: Disposition, w': Writer)
    requires WriteEnds(w, p, contents, disposition, w') && w' != w
    ensures Adds(w, p, w')
  {
    WritePlaces(w, p, contents, disposition, w');
    if OnlyDirs(w, p, w') { OnlyDirsAdds(w, p, w'); } else { PlacedAdds(w, p, contents, w'); }
  }

  lemma {:induction false} AppendAdds(w: Writer, p: Path, contents: Bytes, disposition: Disposition, w': Writer)
    requires AppendEnds(w, p, contents, disposition, w') && w' != w
    ensures Adds(w, p, w')
  {
    AppendPlaces(w, p, contents, disposition, w');
    if OnlyDirs(w, p, w') { OnlyDirsAdds(w, p, w'); } else { PlacedAdds(w, p, w'.disk[p], w'); }
  }

  /** The tree stays proper, and nothing the run has touched or made goes away. */
  ghost predicate Grows(w: Writer, w': Writer) {
    && Tree(w'.disk.Keys, w'.dirs) && Touched(w) <= Touched(w') && w.dirs <= w'.dirs
    && forall q | q in w'.residue :: ValidPath(q)
  }

  lemma {:induction false} TreeStep(w: Writer, op: Op, w': Writer)
    requires Sound(w) && Ends(w, op, w')
    ensures Grows(w, w')
  {
    if w' != w && (op.Write? || op.AppendLine?) {
      var p := ValidatePath(op.raw).value;
      if op.Write? {
        WriteAdds(w, p, op.contents, op.disposition, w');
      } else {
        AppendAdds(w, p, op.line + "\n", op.disposition, w');
      }
      TreeGrows(w.disk, w.dirs, p, w'.disk.Keys, w'.dirs);
    }
  }

  /** Every operation, whatever fault it meets, keeps the run sound and forgets nothing it touched. */
  lemma {:induction false} SoundAfter(w: Writer, ops: seq<Op>)
    requires Sound(w)
    ensures Sound(After(w, ops)) && Touched(w) <= Touched(After(w, ops)) && w.dirs <= After(w, ops).dirs
  {
    if ops != [] {
      var before, op := After(w, ops[..|ops| - 1]), ops[|ops| - 1];
      SoundAfter(w, ops[..|ops| - 1]);
      ApplyEnds(before, op);
      TreeStep(before, op, Apply(before, op));
      StoredStep(before, op, Apply(before, op));
      AccountingHolds(w, ops);
    }
  }

  lemma {:induction false} FreshSound()
    ensures Sound(Fresh)
  {
    AccountingHolds(Fresh, []);
  }

  lemma {:induction false} RecoverOneKeepsTree(v: Writer, audited: set<Path>, r: Planned)
    requires Tree(v.disk.Keys, v.dirs) && ValidPath(r.path) && RecoverOne(v, audited, r).Ok?
    ensures Tree(RecoverOne(v, audited, r).value.disk.Keys, RecoverOne(v, audited, r).value.dirs)
  {
    var v' := RecoverOne(v, audited, r).value;
    TreeGrows(v.disk, v.dirs, r.path, v'.disk.Keys, v'.dirs);
  }

  lemma {:induction false} RecoverKeepsTree(w: Writer, plan: Plan)
    requires Tree(w.disk.Keys, w.dirs) && AllValid(plan) && Recover(w, w.disk.Keys, plan).Ok?
    ensures Tree(Recover(w, w.disk.Keys, plan).value.disk.Keys, Recover(w, w.disk.Keys, plan).value.dirs)
  {
    forall v: Writer, i: nat | i < |plan| && Tree(v.disk.Keys, v.dirs) && RecoverOne(v, w.disk.Keys, plan[i]).Ok?
      ensures Tree(RecoverOne(v, w.disk.Keys, plan[i]).value.disk.Keys, RecoverOne(v, w.disk.Keys, plan[i]).value.dirs)
    {
      RecoverOneKeepsTree(v, w.disk.Keys, plan[i]);
    }
    RecoverKeeps(RecoverOne, w, w.disk.Keys, plan, |plan|, (v: Writer, i: nat) => Tree(v.disk.Keys, v.dirs));
  }

  lemma {:induction false} ContinuesValid(s: Session, w': Writer)
    requires Continues(s, w')
    ensures AllValid(s.plan) && w'.residue == {}
  {
  }

  /** A writer reopened over a proper directory tree is sound. */
  lemma {:induction false} ReopenedSound(s: Session, w': Writer)
    requires Continues(s, w') && Tree(s.disk.Keys, s.dirs)
    ensures Sound(w')
  {
    ReopenAccounted(s.binding, s.disk, s.dirs, s.plan);
    ReopenedStored(s, w');
    ReopenedFrom(s, w');
    ContinuesValid(s, w');
    RecoverKeepsTree(Resumed(s.binding, s.disk, s.dirs), s.plan);
  }

  // ---- when a run can be finalized ----

  /** An empty record, which keeps the disposition a file was recorded with. */
  function Emptied(w: Writer, p: Path): FileRecord {
    FileRecord(p, 0, "", if p in w.files then w.files[p].disposition else Publishable)
  }

  /** The manifest with the shortest marker that the paths can still get. */
  function Smallest(w: Writer, paths: set<Path>): map<Path, FileRecord> {
    map p | p in paths :: Emptied(w, p)
  }

  /** The manifest with every record kept, and nothing in the other files. */
  function Kept(w: Writer, paths: set<Path>): map<Path, FileRecord> {
    map p | p in paths :: if p in w.files then w.files[p] else Emptied(w, p)
  }

  /** What the run has touched makes, with its report, a tree within the limits, and nothing is poisoned. */
  ghost predicate CanFill(w: Writer, report: Path) {
    var all := Touched(w) + {report};
    w.poisoned == {} && Tree(all, w.dirs) && |all| <= MAX_ARTIFACT_FILES && AuditPasses(all, w.dirs, 2)
  }

  ghost predicate CanComplete(w: Writer, report: Path, intent: Intent) {
    CanFill(w, report) && MarkerFits(Smallest(w, Touched(w) + {report}), intent)
  }

  ghost predicate Completes(w: Writer, ops: seq<Op>, raw: RawPath, report: Path, intent: Intent) {
    Finalize(After(w, ops), raw, report, intent).Ok?
  }

  ghost predicate KeepsRecords(w: Writer, u: Writer) {
    forall p | p in w.files :: p in u.files && u.files[p] == w.files[p]
  }

  // ---- what a finalization needs ----

  lemma {:induction false} SmallerTree(paths: set<Path>, dirs: set<Path>, more: set<Path>, dirs': set<Path>)
    requires paths <= more && dirs <= dirs' && Tree(more, dirs') && |more| <= MAX_ARTIFACT_FILES
    requires AuditPasses(more, dirs', 2)
    ensures Tree(paths, dirs) && |paths| <= MAX_ARTIFACT_FILES && AuditPasses(paths, dirs, 2)
  {
    SubsetSize(paths, more);
    EntriesMonotone(paths, dirs, more, dirs');
  }

  lemma {:induction false} FinalizedMeans(u: Writer, raw: RawPath, report: Path, intent: Intent)
    requires Sound(u) && Finalize(u, raw, report, intent).Ok?
    ensures ValidatePath(raw) == Ok(report) && u.poisoned == {} && report in u.disk.Keys && Touched(u) == u.disk.Keys
    ensures Tree(u.disk.Keys, u.dirs) && |u.disk.Keys| <= MAX_ARTIFACT_FILES && AuditPasses(u.disk.Keys, u.dirs, 2)
    ensures u.files.Keys == u.disk.Keys && MarkerFits(u.files, intent)
  {
    assert |u.files.Keys| == |u.files|;
  }

  lemma {:induction false} DecimalIsSomething(n: nat)
    ensures |Decimal(n)| >= 1 && |Decimal(0)| == 1
  {
  }

  /** No record of a path takes less of the marker than an empty one, whatever its disposition was. */
  lemma {:induction false} EmptiedIsLeast(w: Writer, p: Path, r: FileRecord)
    requires r.path == p && (p in w.files ==> r.disposition == w.files[p].disposition)
    ensures RecordJson(Emptied(w, p)) <= RecordJson(r)
  {
    DecimalIsSomething(r.bytes);
  }

  /** A manifest that lies below another record by record has no longer marker. */
  lemma {:induction false} SmallerMarker(files: map<Path, FileRecord>, more: map<Path, FileRecord>, intent: Intent)
    requires files.Keys <= more.Keys && (forall p | p in files :: RecordJson(files[p]) <= RecordJson(more[p]))
    requires (forall p | p in more :: more[p].disposition.Publishable?) ==>
               forall p | p in files :: files[p].disposition.Publishable?
    requires MarkerFits(more, intent)
    ensures MarkerFits(files, intent)
  {
    SumGrows(files, more, RecordJson);
  }

  /** A later state of the run: its files are recorded under their paths and have kept their dispositions. */
  ghost predicate Later(w: Writer, u: Writer) {
    && (forall p | p in u.files :: u.files[p].path == p)
    && forall p | p in w.files :: p in u.files && u.files[p].disposition == w.files[p].disposition
  }

  lemma {:induction false} AfterIsLater(w: Writer, ops: seq<Op>)
    requires Sound(w)
    ensures Later(w, After(w, ops))
  {
    var u := After(w, ops);
    SoundAfter(w, ops);
    forall p | p in u.files ensures u.files[p].path == p { assert RecordOk(p, u.files[p]); }
    forall p | p in w.files ensures p in u.files && u.files[p].disposition == w.files[p].disposition {
      DispositionStays(w, ops, p);
    }
  }

  lemma {:induction false} SmallestIsLeast(w: Writer, u: Writer, paths: set<Path>, intent: Intent)
    requires Later(w, u) && paths <= u.files.Keys && MarkerFits(u.files, intent)
    ensures MarkerFits(Smallest(w, paths), intent)
  {
    forall p | p in paths ensures RecordJson(Emptied(w, p)) <= RecordJson(u.files[p]) {
      EmptiedIsLeast(w, p, u.files[p]);
    }
    SmallerMarker(Smallest(w, paths), u.files, intent);
  }

  lemma {:induction false} KeptIsLeast(w: Writer, u: Writer, paths: set<Path>, intent: Intent)
    requires Later(w, u) && KeepsRecords(w, u) && paths <= u.files.Keys && MarkerFits(u.files, intent)
    ensures MarkerFits(Kept(w, paths), intent)
  {
    forall p | p in paths ensures RecordJson(Kept(w, paths)[p]) <= RecordJson(u.files[p]) {
      if p !in w.files { EmptiedIsLeast(w, p, u.files[p]); }
    }
    SmallerMarker(Kept(w, paths), u.files, intent);
  }

  lemma {:induction false} CompletionFills(w: Writer, ops: seq<Op>, raw: RawPath, report: Path, intent: Intent)
    requires Sound(w) && Completes(w, ops, raw, report, intent)
    ensures ValidatePath(raw) == Ok(report) && CanFill(w, report)
    ensures Touched(w) + {report} <= After(w, ops).files.Keys && MarkerFits(After(w, ops).files, intent)
  {
    var u := After(w, ops);
    SoundAfter(w, ops);
    FinalizedMeans(u, raw, report, intent);
    SmallerTree(Touched(w) + {report}, w.dirs, u.disk.Keys, u.dirs);
    if w.poisoned != {} {
      var p :| p in w.poisoned;
      PoisonStays(w, ops, p);
    }
  }

  // ---- how a run is brought to its end ----

  /** Discarding every scratch changes nothing else. */
  lemma {:induction false} DiscardAll(w: Writer) returns (ops: seq<Op>)
    ensures After(w, ops) == w.(scratches := map[])
    decreases |w.scratches|
  {
    if w.scratches == map[] {
      ops := [];
    } else {
      var name :| name in w.scratches;
      var op := Discard(name, true);
      var w' := Apply(w, op);
      assert |w'.scratches| < |w.scratches| by {
        assert w'.scratches.Keys == w.scratches.Keys - {name};
        assert |w'.scratches.Keys| == |w'.scratches| && |w.scratches.Keys| == |w.scratches|;
      }
      var rest := DiscardAll(w');
      ops := [op] + rest;
      FirstThen(w, op, rest);
    }
  }

  lemma {:induction false} FirstThen(w: Writer, op: Op, rest: seq<Op>)
    ensures After(w, [op] + rest) == After(Apply(w, op), rest)
  {
    AfterConcat(w, [op], rest);
    assert [op][..0] == [];
    assert After(w, [op]) == Apply(After(w, []), op);
  }

  /** The record may replace what is recorded: same disposition, and no more bytes. */
  ghost predicate Replaces(w: Writer, p: Path, r: FileRecord) {
    && RecordOk(p, r) && r.bytes <= (if p in w.files then w.files[p].bytes else 0)
    && (p in w.files ==> r.disposition == w.files[p].disposition)
  }

  /** The path is in the manifest as wanted and on disk with the same contents, and no temporary is left for it. */
  ghost predicate Settled(w: Writer, p: Path, r: FileRecord) {
    p in w.files && w.files[p] == r && p in w.disk && w.disk[p] == r.digest && p !in w.residue
  }

  ghost predicate AllSettled(w: Writer, goal: map<Path, FileRecord>, paths: set<Path>) {
    forall p | p in paths :: p in goal && Settled(w, p, goal[p])
  }

  ghost predicate AllReplace(w: Writer, goal: map<Path, FileRecord>, paths: set<Path>) {
    forall p | p in paths :: p in goal && Replaces(w, p, goal[p])
  }

  /** A run whose files can all be written within `all`. */
  ghost predicate Mendable(w: Writer, all: set<Path>) {
    && w.scratches == map[] && w.poisoned == {} && Accounted(w) && Stored(w)
    && Touched(w) <= all && Tree(all, w.dirs) && |all| <= MAX_ARTIFACT_FILES
  }

  /** A run being brought to the manifest `goal`: the paths in `todo` are still to be written. */
  ghost predicate Mending(goal: map<Path, FileRecord>, w: Writer, dirs: set<Path>, todo: set<Path>) {
    && Mendable(w, goal.Keys) && w.dirs <= dirs + Directories(goal.Keys) && todo <= goal.Keys
    && AllSettled(w, goal, goal.Keys - todo) && AllReplace(w, goal, todo)
  }

  function Mend(p: Path, r: FileRecord): Op {
    Write(AsRaw(p), r.digest, r.disposition, NoWriteFault)
  }

  lemma {:induction false} RoomInTree(disk: map<Path, Bytes>, dirs: set<Path>, all: set<Path>, p: Path)
    requires Tree(all, dirs) && disk.Keys <= all && p in all
    ensures !Blocked(disk, p) && p !in dirs && ValidPath(p)
  {
  }

  lemma {:induction false} RecordFits(w: Writer, p: Path)
    requires Accounted(w) && p in w.files
    ensures w.files[p].bytes <= w.total && RecordOk(p, w.files[p])
  {
    SumSplit(w.files, Size, p);
  }

  lemma {:induction false} RoomForFile(files: map<Path, FileRecord>, all: set<Path>, p: Path)
    requires files.Keys <= all && p in all && p !in files && |all| <= MAX_ARTIFACT_FILES
    ensures |files| < MAX_ARTIFACT_FILES
  {
    SubsetSize(files.Keys + {p}, all);
    assert |files.Keys| == |files|;
  }

  lemma {:induction false} ReplacementIsAccepted(w: Writer, p: Path, r: FileRecord)
    requires w.scratches == map[] && !Blocked(w.disk, p) && p !in w.dirs && Replaces(w, p, r)
    requires (if p in w.files then w.files[p].bytes else 0) <= w.total <= MAX_ARTIFACT_TOTAL_BYTES
    requires p !in w.files ==> |w.files| < MAX_ARTIFACT_FILES
    ensures WriteRefusal(w, p, r.digest, r.disposition).None?
  {
  }

  lemma {:induction false} MendIsAccepted(w: Writer, all: set<Path>, p: Path, r: FileRecord)
    requires Mendable(w, all) && p in all && Replaces(w, p, r)
    ensures WriteRefusal(w, p, r.digest, r.disposition).None?
  {
    RoomInTree(w.disk, w.dirs, all, p);
    if p in w.files { RecordFits(w, p); } else { RoomForFile(w.files, all, p); }
    ReplacementIsAccepted(w, p, r);
  }

  ghost predicate MendedTo(w: Writer, p: Path, r: FileRecord, w': Writer) {
    w' == w.(files := w.files[p := r], disk := w.disk[p := r.digest], residue := w.residue - {p},
             dirs := w.dirs + Parents(p), total := w'.total)
  }

  lemma {:induction false} MendIsWrite(w: Writer, p: Path, r: FileRecord)
    requires ValidPath(p) && WriteRefusal(w, p, r.digest, r.disposition).None?
    ensures Apply(w, Mend(p, r)) == Written(w, p, r.digest, r.disposition)
  {
    ValidIsCanonical(p);
  }

  lemma {:induction false} Mended(w: Writer, all: set<Path>, p: Path, r: FileRecord)
    requires Mendable(w, all) && p in all && Replaces(w, p, r)
    ensures Accounted(Apply(w, Mend(p, r))) && MendedTo(w, p, r, Apply(w, Mend(p, r)))
  {
    MendIsAccepted(w, all, p, r);
    MendIsWrite(w, p, r);
    ApplyAccounted(w, Mend(p, r));
  }

  lemma {:induction false} ParentsInTree(all: set<Path>, dirs: set<Path>, p: Path)
    requires Tree(all, dirs) && p in all
    ensures Tree(all, dirs + Parents(p)) && Parents(p) <= Directories(all)
  {
    forall d | d in Parents(p) ensures d !in all { ParentsConflict(p, d); }
  }

  lemma {:induction false} StaysStored(files: map<Path, FileRecord>, disk: map<Path, Bytes>, p: Path, r: FileRecord)
    requires files.Keys <= disk.Keys
    ensures files[p := r].Keys <= disk[p := r.digest].Keys
  {
  }

  lemma {:induction false} StaysTouched(disk: map<Path, Bytes>, residue: set<Path>, p: Path, c: Bytes, all: set<Path>)
    requires disk.Keys + residue <= all && p in all
    ensures disk[p := c].Keys + (residue - {p}) <= all
  {
  }

  lemma {:induction false} StaysMendable(w: Writer, p: Path, r: FileRecord, w': Writer, all: set<Path>)
    requires MendedTo(w, p, r, w') && p in all && Mendable(w, all) && Accounted(w')
    ensures Mendable(w', all)
  {
    StaysStored(w.files, w.disk, p, r);
    StaysTouched(w.disk, w.residue, p, r.digest, all);
    ParentsInTree(all, w.dirs, p);
  }

  lemma {:induction false} StaysSettled(w: Writer, p: Path, w': Writer, goal: map<Path, FileRecord>, before: set<Path>,
      after: set<Path>)
    requires p in goal && MendedTo(w, p, goal[p], w') && AllSettled(w, goal, before) && after <= before + {p}
    ensures AllSettled(w', goal, after)
  {
    forall q | q in after ensures q in goal && Settled(w', q, goal[q]) {
      if q != p { assert Settled(w, q, goal[q]); }
    }
  }

  lemma {:induction false} StaysToReplace(w: Writer, p: Path, w': Writer, goal: map<Path, FileRecord>, todo: set<Path>)
    requires p in goal && MendedTo(w, p, goal[p], w') && AllReplace(w, goal, todo)
    ensures AllReplace(w', goal, todo - {p})
  {
    forall q | q in todo - {p} ensures q in goal && Replaces(w', q, goal[q]) { assert Replaces(w, q, goal[q]); }
  }

  lemma {:induction false} MendStep(goal: map<Path, FileRecord>, w: Writer, dirs: set<Path>, todo: set<Path>, p: Path)
    requires Mending(goal, w, dirs, todo) && p in todo
    ensures Mending(goal, Apply(w, Mend(p, goal[p])), dirs, todo - {p})
  {
    var w' := Apply(w, Mend(p, goal[p]));
    Mended(w, goal.Keys, p, goal[p]);
    StaysMendable(w, p, goal[p], w', goal.Keys);
    ParentsInTree(goal.Keys, w.dirs, p);
    StaysSettled(w, p, w', goal, goal.Keys - todo, goal.Keys - (todo - {p}));
    StaysToReplace(w, p, w', goal, todo);
  }

  lemma {:induction false} MendAll(goal: map<Path, FileRecord>, w: Writer, dirs: set<Path>, todo: set<Path>)
    returns (ops: seq<Op>)
    requires Mending(goal, w, dirs, todo)
    ensures Mending(goal, After(w, ops), dirs, {})
    decreases |todo|
  {
    if todo == {} {
      ops := [];
    } else {
      var p :| p in todo;
      MendStep(goal, w, dirs, todo, p);
      var rest := MendAll(goal, Apply(w, Mend(p, goal[p])), dirs, todo - {p});
      ops := [Mend(p, goal[p])] + rest;
      FirstThen(w, Mend(p, goal[p]), rest);
    }
  }

  lemma {:induction false} SettledFills(w: Writer, goal: map<Path, FileRecord>)
    requires Mendable(w, goal.Keys) && AllSettled(w, goal, goal.Keys)
    ensures w.files == goal && w.disk.Keys == goal.Keys && w.residue == {}
  {
    forall p | p in goal ensures p in w.files && w.files[p] == goal[p] && p !in w.residue {
      assert Settled(w, p, goal[p]);
    }
  }

  lemma {:induction false} MendedIsExact(goal: map<Path, FileRecord>, w: Writer, dirs: set<Path>)
    requires Mending(goal, w, dirs, {})
    ensures Exact(w) && w.files == goal && w.disk.Keys == goal.Keys
  {
    assert goal.Keys - {} == goal.Keys;
    SettledFills(w, goal);
    forall p | p in w.files ensures w.disk[p] == w.files[p].digest && |w.disk[p]| == w.files[p].bytes {
      assert Settled(w, p, goal[p]);
      RecordFits(w, p);
    }
  }

  /** The goal covers all the run has touched and its report, and replaces every record it must. */
  ghost predicate IsGoal(w: Writer, report: Path, goal: map<Path, FileRecord>) {
    goal.Keys == Touched(w) + {report} && AllReplace(w, goal, goal.Keys)
  }

  lemma {:induction false} AuditAtEnd(paths: set<Path>, dirs: set<Path>, made: set<Path>)
    requires AuditPasses(paths, dirs, 2) && made <= dirs + Directories(paths)
    ensures AuditPasses(paths, made, 2)
  {
    SubsetSize(made + Directories(paths), dirs + Directories(paths));
  }

  /** A run can be finalized with any such manifest whose marker fits. */
  lemma {:induction false} CompleteWith(w: Writer, raw: RawPath, report: Path, intent: Intent,
      goal: map<Path, FileRecord>)
    returns (ops: seq<Op>)
    requires Sound(w) && ValidatePath(raw) == Ok(report) && CanFill(w, report) && IsGoal(w, report, goal)
    requires MarkerFits(goal, intent)
    ensures Completes(w, ops, raw, report, intent) && After(w, ops).files == goal
  {
    var discards := DiscardAll(w);
    var bare := After(w, discards);
    SoundAfter(w, discards);
    assert AllReplace(bare, goal, goal.Keys) by {
      forall p | p in goal ensures Replaces(bare, p, goal[p]) { assert Replaces(w, p, goal[p]); }
    }
    var mends := MendAll(goal, bare, w.dirs, goal.Keys);
    ops := discards + mends;
    AfterConcat(w, discards, mends);
    MendedIsExact(goal, After(w, ops), w.dirs);
    AuditAtEnd(goal.Keys, w.dirs, After(w, ops).dirs);
  }

  lemma {:induction false} SmallestIsGoal(w: Writer, report: Path)
    requires Sound(w) && CanFill(w, report)
    ensures IsGoal(w, report, Smallest(w, Touched(w) + {report}))
  {
    var goal := Smallest(w, Touched(w) + {report});
    forall p | p in goal ensures Replaces(w, p, goal[p]) {}
  }

  lemma {:induction false} KeptIsGoal(w: Writer, report: Path)
    requires Sound(w) && CanFill(w, report)
    ensures IsGoal(w, report, Kept(w, Touched(w) + {report}))
  {
    var goal := Kept(w, Touched(w) + {report});
    forall p | p in goal ensures Replaces(w, p, goal[p]) {
      if p in w.files { RecordFits(w, p); }
    }
  }

  /**
   From any sound state, some operations bring a run to its finalization exactly when nothing is
   poisoned, what it has touched fits with the report and the directories already made into one tree
   within the limits on files and on audited entries, and the shortest marker of such a run fits.
   */
  lemma {:induction false} CompletesIff(w: Writer, raw: RawPath, report: Path, intent: Intent)
    requires Sound(w)
    ensures (exists ops :: Completes(w, ops, raw, report, intent)) <==>
            ValidatePath(raw) == Ok(report) && CanComplete(w, report, intent)
  {
    var all := Touched(w) + {report};
    if ops :| Completes(w, ops, raw, report, intent) {
      CompletionFills(w, ops, raw, report, intent);
      AfterIsLater(w, ops);
      SmallestIsLeast(w, After(w, ops), all, intent);
    }
    if ValidatePath(raw) == Ok(report) && CanComplete(w, report, intent) {
      SmallestIsGoal(w, report);
      var ops := CompleteWith(w, raw, report, intent, Smallest(w, all));
    }
  }

  ghost predicate CompletesKeeping(w: Writer, ops: seq<Op>, raw: RawPath, report: Path, intent: Intent) {
    Completes(w, ops, raw, report, intent) && KeepsRecords(w, After(w, ops))
  }

  /** And some do so without changing a record exactly when the marker with all of those fits. */
  lemma {:induction false} CompletesKeepingIff(w: Writer, raw: RawPath, report: Path, intent: Intent)
    requires Sound(w)
    ensures (exists ops :: CompletesKeeping(w, ops, raw, report, intent)) <==>
            && ValidatePath(raw) == Ok(report) && CanFill(w, report)
            && MarkerFits(Kept(w, Touched(w) + {report}), intent)
  {
    var all := Touched(w) + {report};
    if ops :| CompletesKeeping(w, ops, raw, report, intent) {
      CompletionFills(w, ops, raw, report, intent);
      AfterIsLater(w, ops);
      KeptIsLeast(w, After(w, ops), all, intent);
    }
    if ValidatePath(raw) == Ok(report) && CanFill(w, report) && MarkerFits(Kept(w, all), intent) {
      KeptIsGoal(w, report);
      var ops := CompleteWith(w, raw, report, intent, Kept(w, all));
      assert CompletesKeeping(w, ops, raw, report, intent);
    }
  }

  // ---- accepted runs that can never be finalized ----

  lemma {:induction false} FreshGoal(paths: set<Path>)
    requires Tree(paths, {}) && |paths| <= MAX_ARTIFACT_FILES
    ensures Mending(Smallest(Fresh, paths), Fresh, {}, paths)
  {
    var goal := Smallest(Fresh, paths);
    FreshSound();
    assert goal.Keys == paths;
    forall p | p in paths ensures Replaces(Fresh, p, goal[p]) {}
  }

  /** Any tree within the limits on files can be written from the start. */
  lemma {:induction false} TreeCanBeWritten(paths: set<Path>) returns (ops: seq<Op>)
    requires Tree(paths, {}) && |paths| <= MAX_ARTIFACT_FILES
    ensures Sound(After(Fresh, ops)) && Exact(After(Fresh, ops)) && After(Fresh, ops).files.Keys == paths
  {
    FreshSound();
    FreshGoal(paths);
    ops := MendAll(Smallest(Fresh, paths), Fresh, {}, paths);
    SoundAfter(Fresh, ops);
    MendedIsExact(Smallest(Fresh, paths), After(Fresh, ops), {});
  }

  /** No operations after these finalize the run, whatever its report and marker. */
  ghost predicate Stuck(w: Writer) {
    forall more, raw, report, intent :: !Completes(w, more, raw, report, intent)
  }

  /** What no record of the marker can do without: its frame, one digit and the shorter disposition. */
  const LEAST_RECORD := 168

  lemma {:induction false} RecordsWeigh(files: map<Path, FileRecord>)
    ensures SumOver(files, RecordJson) >= LEAST_RECORD * |files|
    decreases files
  {
    if files != map[] {
      var p :| p in files;
      SumSplit(files, RecordJson, p);
      RecordsWeigh(files - {p});
      DecimalIsSomething(files[p].bytes);
      assert (files - {p}).Keys == files.Keys - {p} && |files.Keys| == |files|;
      assert |(files - {p}).Keys| == |files - {p}|;
    }
  }

  /**
   The writer accepts any tree of up to 4096 files, but from 3121 of them on no marker fits, so the
   run can never be finalized, whatever is done after.
   */
  lemma {:induction false} ManyFilesAreStuck(paths: set<Path>) returns (ops: seq<Op>)
    requires Tree(paths, {}) && 3121 <= |paths| <= MAX_ARTIFACT_FILES
    ensures var w := After(Fresh, ops); Accounted(w) && Exact(w) && w.files.Keys == paths && Stuck(w)
  {
    ops := TreeCanBeWritten(paths);
    var w := After(Fresh, ops);
    forall more, raw, report, intent ensures !Completes(w, more, raw, report, intent) {
      ManyFilesNeverFit(w, report, intent);
      CompletesIff(w, raw, report, intent);
    }
  }

  lemma {:induction false} ManyFilesNeverFit(w: Writer, report: Path, intent: Intent)
    requires Exact(w) && |w.files| >= 3121
    ensures !CanComplete(w, report, intent)
  {
    var all := Touched(w) + {report};
    var smallest := Smallest(w, all);
    assert smallest.Keys == all && |smallest.Keys| == |smallest| && |w.files.Keys| == |w.files|;
    SubsetSize(w.files.Keys, all);
    RecordsWeigh(smallest);
  }

  // ---- such trees ----

  function Firsts(f: nat -> Path, k: nat): set<Path> {
    if k == 0 then {} else Firsts(f, k - 1) + {f(k - 1)}
  }

  lemma {:induction false} FirstsMembers(f: nat -> Path, k: nat)
    ensures forall p | p in Firsts(f, k) :: exists i: nat :: i < k && p == f(i)
  {
    if k > 0 { FirstsMembers(f, k - 1); }
  }

  /** Paths that are valid and start with different names. */
  ghost predicate Separate(f: nat -> Path, k: nat) {
    && (forall i: nat | i < k :: ValidPath(f(i)))
    && forall i: nat, j: nat | i < j < k :: Apart(f(i), f(j))
  }

  predicate Apart(p: Path, q: Path) { p != [] && q != [] && p[0] != q[0] }

  lemma {:induction false} FewerSeparate(f: nat -> Path, n: nat, k: nat)
    requires Separate(f, k) && n <= k
    ensures Separate(f, n)
  {
  }

  lemma {:induction false} SeparateTree(f: nat -> Path, k: nat)
    requires Separate(f, k)
    ensures Tree(Firsts(f, k), {})
  {
    FirstsMembers(f, k);
    forall p, q | p in Firsts(f, k) && q in Firsts(f, k) ensures !Conflicts(p, q) {
      var i: nat :| i < k && p == f(i);
      var j: nat :| j < k && q == f(j);
      if i < j { assert Apart(f(i), f(j)); } else if j < i { assert Apart(f(j), f(i)); }
    }
  }

  lemma {:induction false} SeparateIsNew(f: nat -> Path, k: nat)
    requires Separate(f, k + 1)
    ensures forall q | q in Firsts(f, k) :: Apart(q, f(k))
  {
    FirstsMembers(f, k);
    forall q | q in Firsts(f, k) ensures Apart(q, f(k)) {
      var i: nat :| i < k && q == f(i);
    }
  }

  lemma {:induction false} FirstsSize(f: nat -> Path, k: nat)
    requires Separate(f, k)
    ensures |Firsts(f, k)| == k
  {
    if k > 0 {
      FewerSeparate(f, k - 1, k);
      FirstsSize(f, k - 1);
      SeparateIsNew(f, k - 1);
    }
  }

  function Run(i: nat): string { seq(i + 1, _ => 'x') }

  lemma {:induction false} RunsDiffer(i: nat, j: nat)
    requires i != j
    ensures Run(i) != Run(j)
  {
    assert |Run(i)| == i + 1 && |Run(j)| == j + 1;
  }

  /** A file at the top of the run directory. */
  function Flat(i: nat): Path { [Run(i)] }

  /** A flat directory of any size the writer accepts is such a tree. */
  lemma {:induction false} FlatTree(k: nat)
    requires k <= MAX_ARTIFACT_FILES
    ensures Tree(Firsts(Flat, k), {}) && |Firsts(Flat, k)| == k
  {
    forall i: nat | i < k ensures ValidPath(Flat(i)) { assert Run(i)[0] == 'x'; }
    forall i: nat, j: nat | i < j < k ensures Apart(Flat(i), Flat(j)) { RunsDiffer(i, j); }
    SeparateTree(Flat, k);
    FirstsSize(Flat, k);
  }

  // ---- deep trees ----

  const DEPTH := MAX_ARTIFACT_PATH_COMPONENTS

  /** A file as deep as a path may be, in directories of its own. */
  function Deep(i: nat): Path {
    [Run(i)] + seq(DEPTH - 1, _ => "d")
  }

  lemma {:induction false} DeepText(i: nat, n: nat)
    requires 0 < n <= DEPTH
    ensures TextBytes(Deep(i)[..n]) == i + 1 + 2 * (n - 1)
  {
    var p := Deep(i)[..n];
    if n > 1 {
      DeepText(i, n - 1);
      assert p[..n - 1] == Deep(i)[..n - 1] && p[n - 1] == "d";
    }
  }

  lemma {:induction false} DeepValid(i: nat)
    requires i + 2 * DEPTH <= MAX_ARTIFACT_PATH_BYTES
    ensures ValidPath(Deep(i))
  {
    var p := Deep(i);
    DeepText(i, DEPTH);
    assert p[..DEPTH] == p;
    assert p[0][0] == 'x' && forall n | 0 < n < DEPTH :: p[n] == "d";
  }

  lemma {:induction false} DeepSeparate(k: nat)
    requires k + 2 * DEPTH <= MAX_ARTIFACT_PATH_BYTES
    ensures Separate(Deep, k)
  {
    forall i: nat | i < k ensures ValidPath(Deep(i)) { DeepValid(i); }
    forall i: nat, j: nat | i < j < k ensures Apart(Deep(i), Deep(j)) { RunsDiffer(i, j); }
  }

  lemma {:induction false} OwnDirectories(paths: set<Path>, p: Path)
    requires p != [] && forall q | q in paths :: Apart(q, p)
    ensures p !in paths && Directories(paths + {p}) == Directories(paths) + Parents(p)
    ensures Directories(paths) !! Parents(p)
  {
    forall d | d in Parents(p) ensures d !in Directories(paths) { assert d[0] == p[0]; }
  }

  /** A file in directories of its own adds one entry for each component. */
  lemma {:induction false} OwnEntries(paths: set<Path>, p: Path)
    requires p != [] && forall q | q in paths :: Apart(q, p)
    ensures Entries(paths + {p}, {}) == Entries(paths, {}) + |p|
  {
    AboveSize(p, |p|);
    OwnDirectories(paths, p);
    assert {} + Directories(paths) == Directories(paths);
    assert {} + Directories(paths + {p}) == Directories(paths + {p});
  }

  lemma {:induction false} NoEntries()
    ensures Entries({}, {}) == 0
  {
    assert Directories({}) == {};
  }

  lemma {:induction false} NextEntries(f: nat -> Path, k: nat)
    requires Separate(f, k + 1)
    ensures Entries(Firsts(f, k + 1), {}) == Entries(Firsts(f, k), {}) + |f(k)|
  {
    SeparateIsNew(f, k);
    OwnEntries(Firsts(f, k), f(k));
  }

  lemma {:induction false} EvenSteps(g: nat -> nat, k: nat)
    requires g(0) == 0 && forall i: nat | i < k :: g(i + 1) == g(i) + DEPTH
    ensures g(k) == k * DEPTH
    decreases k
  {
    if k > 0 { EvenSteps(g, k - 1); }
  }

  /** Each of the files brings all its directories along. */
  lemma {:induction false} SeparateEntries(f: nat -> Path, k: nat)
    requires Separate(f, k) && forall i: nat | i < k :: |f(i)| == DEPTH
    ensures Entries(Firsts(f, k), {}) == k * DEPTH
  {
    var g := (i: nat) => Entries(Firsts(f, i), {});
    NoEntries();
    forall i: nat | i < k ensures Entries(Firsts(f, i + 1), {}) == Entries(Firsts(f, i), {}) + DEPTH {
      FewerSeparate(f, i + 1, k);
      NextEntries(f, i);
    }
    EvenSteps(g, k);
  }

  lemma {:induction false} TooManyEntries(w: Writer, paths: set<Path>, report: Path, intent: Intent)
    requires paths <= w.disk.Keys && Entries(paths, {}) >= 130 * DEPTH
    ensures !CanComplete(w, report, intent) && !AtBoundary(w)
  {
    EntriesMonotone(paths, {}, Touched(w) + {report}, w.dirs);
    EntriesMonotone(paths, {}, w.disk.Keys, w.dirs);
  }

  /**
   The writer accepts any number of deep files up to its limits, but from one hundred and thirty
   of them on the run can be neither resumed nor finalized, whatever is done after.
   */
  lemma {:induction false} DeepRunIsStuck(k: nat) returns (ops: seq<Op>)
    requires 130 <= k <= MAX_ARTIFACT_PATH_BYTES - 2 * DEPTH
    ensures var w := After(Fresh, ops); Accounted(w) && Exact(w) && w.files.Keys == Firsts(Deep, k) && Stuck(w)
    ensures forall more :: !AtBoundary(After(After(Fresh, ops), more))
  {
    DeepSeparate(k);
    SeparateTree(Deep, k);
    FirstsSize(Deep, k);
    SeparateEntries(Deep, k);
    ops := TreeCanBeWritten(Firsts(Deep, k));
    var w := After(Fresh, ops);
    forall more, raw, report, intent ensures !Completes(w, more, raw, report, intent) {
      TooManyEntries(w, Firsts(Deep, k), report, intent);
      CompletesIff(w, raw, report, intent);
    }
    forall more ensures !AtBoundary(After(w, more)) {
      SoundAfter(w, more);
      var u := After(w, more);
      if AtBoundary(u) {
        assert Firsts(Deep, k) <= u.disk.Keys;
        TooManyEntries(u, Firsts(Deep, k), [], Intent(false, false, 0));
      }
    }
  }
}
