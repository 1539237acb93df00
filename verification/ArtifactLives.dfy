/**
 The whole life of an artifact run: sessions of operations, each ended by a crash
 or an exit, joined by reopening the run from a binding and a recovery plan.
 */
module ArtifactLives {
  import opened Wrappers
  import opened Text
  import opened ArtifactPaths
  import opened ArtifactWriter
  import opened ArtifactHistory
  import opened ArtifactResume

  /** The operations of one process, and the binding, tree and plan the next one reopens from. */
  datatype Session = Session(ops: seq<Op>, binding: Binding, disk: map<Path, Bytes>, dirs: set<Path>, plan: Plan)

  ghost predicate Continues(s: Session, w': Writer) {
    ReopenPlan(s.binding, s.disk, s.dirs, {}, s.plan) == Ok(w')
  }

  /** The binding may be any that passes validation, taken before or after any of the operations. */
  ghost predicate IsLife(ws: seq<Writer>, ss: seq<Session>) {
    |ws| == |ss| + 1 && ws[0] == Fresh && forall i | 0 <= i < |ss| :: Joined(ws, ss, i)
  }

  ghost predicate Joined(ws: seq<Writer>, ss: seq<Session>, i: nat)
    requires |ws| == |ss| + 1 && i < |ss|
  {
    Continues(ss[i], ws[i + 1])
  }

  /** The tree still holds every file; a reopening that crashed in between may have added some. */
  ghost predicate Extends(disk: map<Path, Bytes>, disk': map<Path, Bytes>) {
    forall p | p in disk :: p in disk' && disk'[p] == disk[p]
  }

  /** The session's tree is what its operations left, whatever crashed reopenings added to it. */
  ghost predicate Leaves(w: Writer, s: Session) {
    Extends(After(w, s.ops).disk, s.disk)
  }

  /** The binding was handed out by this session, after the first operations `early`. */
  ghost predicate HandsOut(w: Writer, s: Session, early: seq<Op>) {
    early <= s.ops && Binds(After(w, early), s.binding)
  }

  lemma {:induction false} RecoveryOnlyAdds(disk: map<Path, Bytes>, plan: Plan, m: nat)
    requires m <= |plan| && InTurn(disk, plan, m) && Distinct(plan)
    ensures Extends(disk, DiskAfter(disk, plan, m))
  {
    if m > 0 {
      RecoveryOnlyAdds(disk, plan, m - 1);
      assert Turn(disk, plan, m - 1);
    }
  }

  /** A reopening that crashes after any of its recovery writes only adds files. */
  lemma {:induction false} CrashedReopeningExtends(b: Binding, disk: map<Path, Bytes>, dirs: set<Path>, plan: Plan,
      m: nat)
    requires PlanOk(FromRecords(b.files), plan) && m <= |plan|
    requires RecoverWith(RecoverOne, Resumed(b, disk, dirs), disk.Keys, plan, m).Ok?
    ensures Extends(disk, RecoverWith(RecoverOne, Resumed(b, disk, dirs), disk.Keys, plan, m).value.disk)
  {
    RecoverShape(Resumed(b, disk, dirs), plan, m);
    RecoveryOnlyAdds(disk, plan, m);
  }

  // ---- accounting ----

  /** Over a whole life of a run, through any number of processes, the accounting holds. */
  lemma {:induction false} LifeAccounted(ws: seq<Writer>, ss: seq<Session>, n: nat, ops: seq<Op>)
    requires IsLife(ws, ss) && n < |ws|
    ensures Accounted(After(ws[n], ops))
  {
    if n > 0 {
      assert Joined(ws, ss, n - 1);
      ReopenAccounted(ss[n - 1].binding, ss[n - 1].disk, ss[n - 1].dirs, ss[n - 1].plan);
    }
    AccountingHolds(ws[n], ops);
  }

  // ---- manifested files stay manifested ----

  ghost predicate Stored(w: Writer) {
    w.files.Keys <= w.disk.Keys
  }

  lemma {:induction false} StoredStep(w: Writer, op: Op, w': Writer)
    requires Stored(w) && Ends(w, op, w')
    ensures Stored(w')
  {
  }

  lemma {:induction false} StoredAfter(w: Writer, ops: seq<Op>)
    requires Stored(w)
    ensures Stored(After(w, ops))
  {
    if ops != [] {
      var before, op := After(w, ops[..|ops| - 1]), ops[|ops| - 1];
      StoredAfter(w, ops[..|ops| - 1]);
      ApplyEnds(before, op);
      StoredStep(before, op, Apply(before, op));
    }
  }

  lemma {:induction false} ReopenedStored(s: Session, w': Writer)
    requires Continues(s, w')
    ensures Stored(w') && w'.poisoned == {}
  {
  }

  lemma {:induction false} ReopenedFrom(s: Session, w': Writer)
    requires Continues(s, w')
    ensures AllNew(FromRecords(s.binding.files), s.plan) && AtBoundary(w')
    ensures Recover(Resumed(s.binding, s.disk, s.dirs), s.disk.Keys, s.plan) == Ok(w')
  {
  }

  lemma {:induction false} RecoveredAll(w: Writer, plan: Plan, v: Writer)
    requires AllNew(w.files, plan) && w.residue == {} && Recover(w, w.disk.Keys, plan) == Ok(v)
    ensures Recovered(w, plan, v, |plan|)
  {
    RecoverShape(w, plan, |plan|);
  }

  /** A reopened writer is what its recovery made of the resumed one. */
  lemma {:induction false} ReopenedShape(s: Session, w': Writer)
    requires Continues(s, w')
    ensures AllNew(FromRecords(s.binding.files), s.plan) && AtBoundary(w')
    ensures Recovered(Resumed(s.binding, s.disk, s.dirs), s.plan, w', |s.plan|)
  {
    ReopenedFrom(s, w');
    RecoveredAll(Resumed(s.binding, s.disk, s.dirs), s.plan, w');
  }

  /** The recovery files written so far are manifested as planned. */
  ghost predicate AsPlanned(plan: Plan, v: Writer, n: nat) {
    n <= |plan| && forall i | 0 <= i < n :: PlannedIn(v, plan[i])
  }

  ghost predicate PlannedIn(v: Writer, r: Planned) {
    r.path in v.files && v.files[r.path] == FileRecord(r.path, |r.contents|, r.contents, r.disposition)
  }

  lemma {:induction false} AsPlannedStep(plan: Plan, v: Writer, i: nat)
    requires i < |plan| && Distinct(plan) && AsPlanned(plan, v, i)
    ensures AsPlanned(plan, WithRecovery(v, plan[i]), i + 1)
  {
    forall j | 0 <= j < i + 1 ensures PlannedIn(WithRecovery(v, plan[i]), plan[j]) {
      if j < i { assert PlannedIn(v, plan[j]); }
    }
  }

  lemma {:induction false} RecoverAsPlanned(w: Writer, plan: Plan)
    requires AllNew(w.files, plan) && w.residue == {} && Recover(w, w.disk.Keys, plan).Ok?
    ensures AsPlanned(plan, Recover(w, w.disk.Keys, plan).value, |plan|)
  {
    forall v, i: nat | i < |plan| && Recovered(w, plan, v, i) && AsPlanned(plan, v, i) &&
      RecoverOne(v, w.disk.Keys, plan[i]).Ok?
      ensures Recovered(w, plan, RecoverOne(v, w.disk.Keys, plan[i]).value, i + 1)
      ensures AsPlanned(plan, RecoverOne(v, w.disk.Keys, plan[i]).value, i + 1)
    {
      RecoveredStep(w, plan, v, i);
      RecoverOneShape(v, w.disk.Keys, plan[i]);
      AsPlannedStep(plan, v, i);
    }
    RecoverKeeps(RecoverOne, w, w.disk.Keys, plan, |plan|,
                 (v: Writer, i: nat) => Recovered(w, plan, v, i) && AsPlanned(plan, v, i));
  }

  /** What the binding and the plan a process reopens from say about a file. */
  ghost predicate Declares(s: Session, p: Path, d: Disposition) {
    var bound := FromRecords(s.binding.files);
    if p in bound then bound[p].disposition == d else exists r | r in s.plan :: r.path == p && r.disposition == d
  }

  /** A successful reopening manifests every file of the tree, with the disposition its binding or plan declares. */
  lemma {:induction false} ReopenedAsDeclared(s: Session, w': Writer, p: Path)
    requires Continues(s, w') && p in s.disk
    ensures p in w'.files && forall d :: w'.files[p].disposition == d <==> Declares(s, p, d)
  {
    var w := Resumed(s.binding, s.disk, s.dirs);
    RecoverShape(w, s.plan, |s.plan|);
    RecoverAsPlanned(w, s.plan);
    if p !in w.files {
      var i :| 0 <= i < |s.plan| && s.plan[i].path == p;
      assert PlannedIn(w', s.plan[i]);
      assert s.plan[i] in s.plan;
      forall r | r in s.plan && r.path == p ensures r == s.plan[i] {
        var j :| 0 <= j < |s.plan| && s.plan[j] == r;
      }
    }
  }

  lemma {:induction false} LifeStored(ws: seq<Writer>, ss: seq<Session>, n: nat)
    requires IsLife(ws, ss) && n < |ws|
    ensures Stored(ws[n])
  {
    if n > 0 {
      assert Joined(ws, ss, n - 1);
      ReopenedStored(ss[n - 1], ws[n]);
    }
  }

  /** Files manifested before a crash, early or late, are manifested again by every reopening of what it left. */
  lemma {:induction false} LateFilesReturn(ws: seq<Writer>, ss: seq<Session>, m: nat, p: Path)
    requires IsLife(ws, ss) && m < |ss| && Leaves(ws[m], ss[m]) && p in After(ws[m], ss[m].ops).files
    ensures p in ws[m + 1].files
    ensures forall d :: ws[m + 1].files[p].disposition == d <==> Declares(ss[m], p, d)
  {
    LifeStored(ws, ss, m);
    StoredAfter(ws[m], ss[m].ops);
    assert Joined(ws, ss, m);
    ReopenedAsDeclared(ss[m], ws[m + 1], p);
  }

  ghost predicate IsPrivate(w: Writer, p: Path) {
    p in w.files && w.files[p].disposition.PrivateEvidence?
  }

  lemma {:induction false} PrivateAfter(w: Writer, ops: seq<Op>, p: Path)
    requires p in w.files
    ensures p in After(w, ops).files && (IsPrivate(After(w, ops), p) <==> IsPrivate(w, p))
  {
    DispositionStays(w, ops, p);
  }

  lemma {:induction false} EarlyStays(w: Writer, early: seq<Op>, ops: seq<Op>, p: Path)
    requires early <= ops && p in After(w, early).files
    ensures p in After(w, ops).files && (IsPrivate(After(w, ops), p) <==> IsPrivate(After(w, early), p))
  {
    var late := ops[|early|..];
    assert ops == early + late;
    AfterConcat(w, early, late);
    PrivateAfter(After(w, early), late, p);
  }

  ghost predicate LeavesAt(ws: seq<Writer>, ss: seq<Session>, j: nat) {
    j < |ws| && j < |ss| && Leaves(ws[j], ss[j])
  }

  /** Every crash from session `m` on leaves its files to the next process. */
  ghost predicate LeavesAll(ws: seq<Writer>, ss: seq<Session>, m: nat, n: nat) {
    forall j | m <= j < n :: LeavesAt(ws, ss, j)
  }

  ghost predicate DeclaredAt(ss: seq<Session>, j: nat, p: Path) {
    j < |ss| && Declares(ss[j], p, PrivateEvidence)
  }

  ghost predicate DeclaredPrivate(ss: seq<Session>, m: nat, n: nat, p: Path) {
    forall j | m <= j < n :: DeclaredAt(ss, j, p)
  }

  ghost predicate PrivateAt(ws: seq<Writer>, j: nat, p: Path) {
    j < |ws| && IsPrivate(ws[j], p)
  }

  ghost predicate PrivateFrom(ws: seq<Writer>, m: nat, n: nat, p: Path) {
    forall j | m < j <= n :: PrivateAt(ws, j, p)
  }

  /** One reopening, of what a session left with the file manifested. */
  lemma {:induction false} PrivateNext(ws: seq<Writer>, ss: seq<Session>, m: nat, p: Path)
    requires IsLife(ws, ss) && LeavesAt(ws, ss, m) && p in After(ws[m], ss[m].ops).files
    ensures p in ws[m + 1].files && (PrivateAt(ws, m + 1, p) <==> DeclaredAt(ss, m, p))
  {
    LateFilesReturn(ws, ss, m, p);
  }

  lemma {:induction false} ManifestedAlong(ws: seq<Writer>, ss: seq<Session>, m: nat, p: Path, n: nat)
    requires IsLife(ws, ss) && m < n < |ws| && LeavesAll(ws, ss, m, n) && p in After(ws[m], ss[m].ops).files
    ensures p in ws[n].files && (PrivateAt(ws, n, p) <==> DeclaredAt(ss, n - 1, p))
    decreases n
  {
    assert LeavesAt(ws, ss, n - 1);
    if m < n - 1 {
      ManifestedAlong(ws, ss, m, p, n - 1);
      PrivateAfter(ws[n - 1], ss[n - 1].ops, p);
    }
    PrivateNext(ws, ss, n - 1, p);
  }

  /**
   A file that was manifested in some session, before or after its binding was taken, is private
   after every later reopening exactly when each of them declares it so.
   */
  lemma {:induction false} PrivateThroughoutIff(ws: seq<Writer>, ss: seq<Session>, m: nat, p: Path, n: nat)
    requires IsLife(ws, ss) && m < n < |ws| && LeavesAll(ws, ss, m, n) && p in After(ws[m], ss[m].ops).files
    ensures PrivateFrom(ws, m, n, p) <==> DeclaredPrivate(ss, m, n, p)
  {
    forall j | m < j <= n ensures PrivateAt(ws, j, p) <==> DeclaredAt(ss, j - 1, p) {
      ManifestedAlong(ws, ss, m, p, j);
    }
    if PrivateFrom(ws, m, n, p) {
      forall j | m <= j < n ensures DeclaredAt(ss, j, p) { assert PrivateAt(ws, j + 1, p); }
    }
  }

  lemma {:induction false} PrivateBlocks(w: Writer, p: Path, report: RawPath, contract: Path, intent: Intent)
    requires IsPrivate(w, p)
    ensures var f := Finalize(w, report, contract, intent); f.Ok? ==> !f.value.publishable
  {
  }

  /**
   Once private evidence is manifested in any session, no finalization of any later state is
   publishable, as long as every reopening since declares it private in its binding or its plan.
   */
  lemma {:induction false} PrivateEvidenceIsFinal(
    ws: seq<Writer>, ss: seq<Session>, m: nat, early: seq<Op>, p: Path, n: nat, ops: seq<Op>,
    report: RawPath, contract: Path, intent: Intent)
    requires IsLife(ws, ss) && m <= n < |ws| && LeavesAll(ws, ss, m, n)
    requires early <= (if m < n then ss[m].ops else ops) && IsPrivate(After(ws[m], early), p)
    requires DeclaredPrivate(ss, m, n, p)
    ensures var f := Finalize(After(ws[n], ops), report, contract, intent);
      f.Ok? ==> !f.value.publishable
  {
    if m == n {
      EarlyStays(ws[m], early, ops, p);
    } else {
      EarlyStays(ws[m], early, ss[m].ops, p);
      PrivateThroughoutIff(ws, ss, m, p, n);
      assert PrivateAt(ws, n, p);
      PrivateAfter(ws[n], ops, p);
    }
    PrivateBlocks(After(ws[n], ops), p, report, contract, intent);
  }

  /** A binding handed out while the file was private declares it so. */
  lemma {:induction false} HandedOutDeclares(w: Writer, s: Session, early: seq<Op>, p: Path)
    requires HandsOut(w, s, early) && IsPrivate(After(w, early), p)
    ensures Declares(s, p, PrivateEvidence)
  {
  }

  ghost predicate OwnBinding(ws: seq<Writer>, ss: seq<Session>, when: seq<seq<Op>>, j: nat) {
    j < |ws| && j < |ss| && j < |when| && HandsOut(ws[j], ss[j], when[j])
  }

  /** Each session's binding is its own, and the first was taken once the evidence was there. */
  ghost predicate BoundAfter(ws: seq<Writer>, ss: seq<Session>, m: nat, evidence: seq<Op>, n: nat, when: seq<seq<Op>>) {
    (forall j | m <= j < n :: OwnBinding(ws, ss, when, j)) && (m < n ==> m < |when| && evidence <= when[m])
  }

  lemma {:induction false} OwnBindingDeclares(
    ws: seq<Writer>, ss: seq<Session>, m: nat, evidence: seq<Op>, p: Path, n: nat, when: seq<seq<Op>>)
    requires IsLife(ws, ss) && m < n < |ws| && LeavesAll(ws, ss, m, n)
    requires IsPrivate(After(ws[m], evidence), p) && BoundAfter(ws, ss, m, evidence, n, when)
    requires DeclaredPrivate(ss, m, n - 1, p)
    ensures DeclaredAt(ss, n - 1, p)
  {
    assert OwnBinding(ws, ss, when, n - 1);
    PrivateWhenBound(ws, ss, m, evidence, p, n, when);
    HandedOutDeclares(ws[n - 1], ss[n - 1], when[n - 1], p);
  }

  /** The evidence is private in the state each binding was taken of. */
  lemma {:induction false} PrivateWhenBound(
    ws: seq<Writer>, ss: seq<Session>, m: nat, evidence: seq<Op>, p: Path, n: nat, when: seq<seq<Op>>)
    requires IsLife(ws, ss) && m < n < |ws| && LeavesAll(ws, ss, m, n)
    requires IsPrivate(After(ws[m], evidence), p) && BoundAfter(ws, ss, m, evidence, n, when)
    requires DeclaredPrivate(ss, m, n - 1, p)
    ensures n - 1 < |when| && IsPrivate(After(ws[n - 1], when[n - 1]), p)
  {
    BoundIndex(ws, ss, m, evidence, n, when, n - 1);
    if m == n - 1 {
      EarlyStays(ws[m], evidence, when[m], p);
    } else {
      BoundIndex(ws, ss, m, evidence, n, when, m);
      EarlyStays(ws[m], evidence, ss[m].ops, p);
      PrivateThroughoutIff(ws, ss, m, p, n - 1);
      assert PrivateAt(ws, n - 1, p);
      PrivateAfter(ws[n - 1], when[n - 1], p);
    }
  }

  lemma {:induction false} BoundIndex(ws: seq<Writer>, ss: seq<Session>, m: nat, evidence: seq<Op>, n: nat,
      when: seq<seq<Op>>, j: nat)
    requires BoundAfter(ws, ss, m, evidence, n, when) && m <= j < n
    ensures j < |when| && j < |ss| && when[j] <= ss[j].ops && m < |when| && evidence <= when[m]
  {
    assert OwnBinding(ws, ss, when, j);
  }

  lemma {:induction false} OwnBindingsDeclare(
    ws: seq<Writer>, ss: seq<Session>, m: nat, evidence: seq<Op>, p: Path, n: nat, when: seq<seq<Op>>)
    requires IsLife(ws, ss) && m <= n < |ws| && LeavesAll(ws, ss, m, n)
    requires IsPrivate(After(ws[m], evidence), p) && BoundAfter(ws, ss, m, evidence, n, when)
    ensures DeclaredPrivate(ss, m, n, p)
    decreases n
  {
    if m < n {
      OwnBindingsDeclare(ws, ss, m, evidence, p, n - 1, when);
      OwnBindingDeclares(ws, ss, m, evidence, p, n, when);
      forall j | m <= j < n ensures DeclaredAt(ss, j, p) {
        if j < n - 1 { assert DeclaredAt(ss, j, p); }
      }
    }
  }

  /**
   Nothing has to be declared when every process resumes from a binding of the one before it and
   the first of them was taken after the evidence: then the evidence is final.
   */
  lemma {:induction false} BoundEvidenceIsFinal(
    ws: seq<Writer>, ss: seq<Session>, m: nat, evidence: seq<Op>, p: Path, n: nat, when: seq<seq<Op>>, ops: seq<Op>,
    report: RawPath, contract: Path, intent: Intent)
    requires IsLife(ws, ss) && m <= n < |ws| && LeavesAll(ws, ss, m, n)
    requires IsPrivate(After(ws[m], evidence), p) && BoundAfter(ws, ss, m, evidence, n, when)
    requires m == n ==> evidence <= ops
    ensures var f := Finalize(After(ws[n], ops), report, contract, intent);
      f.Ok? ==> !f.value.publishable
  {
    OwnBindingsDeclare(ws, ss, m, evidence, p, n, when);
    if m < n { assert OwnBinding(ws, ss, when, m); }
    PrivateEvidenceIsFinal(ws, ss, m, evidence, p, n, ops, report, contract, intent);
  }

  // ---- logs across processes ----

  /** A log of lines that a session leaves unpoisoned holds the same lines in the process that reopens it. */
  lemma {:induction false} LogReturns(w: Writer, s: Session, w': Writer, p: Path, ls: seq<Bytes>)
    requires Leaves(w, s) && Continues(s, w') && HoldsLines(After(w, s.ops), p, ls)
    requires p in After(w, s.ops).files && p !in After(w, s.ops).poisoned
    ensures HoldsLines(w', p, ls)
  {
    ReopenedAsDeclared(s, w', p);
    ReopenedShape(s, w');
    RecoveryOnlyAdds(s.disk, s.plan, |s.plan|);
  }

  /** The binding or the plan lists the path. */
  ghost predicate Mentions(s: Session, p: Path) {
    p in FromRecords(s.binding.files) || InPlan(s.plan, |s.plan|, p)
  }

  lemma {:induction false} AbsentStays(s: Session, w': Writer, p: Path)
    requires Continues(s, w') && !Mentions(s, p)
    ensures p !in w'.files
  {
    ReopenedShape(s, w');
    AbsentIn(Resumed(s.binding, s.disk, s.dirs), s.plan, w', p);
  }

  lemma {:induction false} AbsentIn(w: Writer, plan: Plan, v: Writer, p: Path)
    requires Recovered(w, plan, v, |plan|) && p !in w.files && !InPlan(plan, |plan|, p)
    ensures p !in v.files
  {
  }

  /** Session `j` only appends lines to the path and leaves it unpoisoned; no plan creates it. */
  ghost predicate LogsAt(ws: seq<Writer>, ss: seq<Session>, j: nat, p: Path) {
    && LeavesAt(ws, ss, j) && OnlyAppended(ss[j].ops, p)
    && var w := After(ws[j], ss[j].ops);
    && p !in w.poisoned && (p !in w.files ==> !Mentions(ss[j], p))
  }

  ghost predicate LogsAll(ws: seq<Writer>, ss: seq<Session>, n: nat, p: Path) {
    forall j | 0 <= j < n :: LogsAt(ws, ss, j, p)
  }

  /** The lines accepted in the first `n` sessions, in order. */
  function LifeLines(ws: seq<Writer>, ss: seq<Session>, n: nat, p: Path): seq<Bytes>
    requires n <= |ws| && n <= |ss|
  {
    if n == 0 then [] else LifeLines(ws, ss, n - 1, p) + AcceptedLines(ws[n - 1], ss[n - 1].ops, p)
  }

  lemma {:induction false} NextHoldsLines(w: Writer, s: Session, w': Writer, p: Path, ls: seq<Bytes>)
    requires HoldsLines(w, p, ls) && Leaves(w, s) && Continues(s, w') && OnlyAppended(s.ops, p)
    requires p !in After(w, s.ops).poisoned && (p !in After(w, s.ops).files ==> !Mentions(s, p))
    ensures HoldsLines(w', p, ls + AcceptedLines(w, s.ops, p))
    ensures forall l | l in AcceptedLines(w, s.ops, p) :: Without(l, '\n')
  {
    RunHoldsLines(w, ls, s.ops, p);
    if p in After(w, s.ops).files {
      LogReturns(w, s, w', p, ls + AcceptedLines(w, s.ops, p));
    } else {
      AbsentStays(s, w', p);
    }
  }

  ghost predicate HoldsAll(w: Writer, p: Path, ls: seq<Bytes>) {
    HoldsLines(w, p, ls) && forall l | l in ls :: Without(l, '\n')
  }

  lemma {:induction false} JoinedHoldsLines(ws: seq<Writer>, ss: seq<Session>, j: nat, w': Writer, p: Path,
      ls: seq<Bytes>)
    requires LogsAt(ws, ss, j, p) && Continues(ss[j], w') && HoldsAll(ws[j], p, ls)
    ensures HoldsAll(w', p, ls + AcceptedLines(ws[j], ss[j].ops, p))
  {
    NextHoldsLines(ws[j], ss[j], w', p, ls);
  }

  lemma {:induction false} NextHoldsAll(ws: seq<Writer>, ss: seq<Session>, j: nat, p: Path, ls: seq<Bytes>)
    requires IsLife(ws, ss) && j < |ss| && LogsAll(ws, ss, j + 1, p) && HoldsAll(ws[j], p, ls)
    ensures HoldsAll(ws[j + 1], p, ls + AcceptedLines(ws[j], ss[j].ops, p))
  {
    assert LogsAt(ws, ss, j, p) && Joined(ws, ss, j);
    JoinedHoldsLines(ws, ss, j, ws[j + 1], p, ls);
  }

  lemma {:induction false} NothingHeld(p: Path)
    ensures HoldsAll(Fresh, p, [])
  {
  }

  lemma {:induction false} LogsBefore(ws: seq<Writer>, ss: seq<Session>, j: nat, p: Path)
    requires LogsAll(ws, ss, j + 1, p)
    ensures LogsAll(ws, ss, j, p)
  {
  }

  lemma {:induction false} LifeHoldsLines(ws: seq<Writer>, ss: seq<Session>, n: nat, p: Path)
    requires IsLife(ws, ss) && n <= |ss| && LogsAll(ws, ss, n, p)
    ensures HoldsAll(ws[n], p, LifeLines(ws, ss, n, p))
  {
    if n == 0 {
      NothingHeld(p);
    } else {
      LogsBefore(ws, ss, n - 1, p);
      LifeHoldsLines(ws, ss, n - 1, p);
      NextHoldsAll(ws, ss, n - 1, p, LifeLines(ws, ss, n - 1, p));
    }
  }

  /**
   Over a whole life, through any faults, crashes and reopenings: a file that is only ever appended
   to and never left poisoned splits at its newlines into every line accepted so far, in order.
   */
  lemma {:induction false} LogSplitsBack(ws: seq<Writer>, ss: seq<Session>, n: nat, ops: seq<Op>, p: Path)
    requires IsLife(ws, ss) && n <= |ss| && LogsAll(ws, ss, n, p) && OnlyAppended(ops, p)
    ensures var w, all := After(ws[n], ops), LifeLines(ws, ss, n, p) + AcceptedLines(ws[n], ops, p);
      p in w.files && p !in w.poisoned ==> p in w.disk && Split(w.disk[p], '\n') == all + [""]
  {
    LifeHoldsLines(ws, ss, n, p);
    JsonLinesSplitBack(ws[n], LifeLines(ws, ss, n, p), ops, p);
  }

  // ---- evidence that is not declared ----

  /** Evidence written after the binding was taken, in a tree left by a crash. */
  function LateEvidence(p: Path, c: Bytes): Session {
    Session([Write(AsRaw(p), c, PrivateEvidence, NoWriteFault)], Binding(ARTIFACT_FORMAT_VERSION, []),
            map[p := c], Parents(p), [Planned(p, c, Publishable)])
  }

  lemma {:induction false} LateWrite(p: Path, c: Bytes)
    requires ValidPath(p) && |c| <= MAX_ARTIFACT_FILE_BYTES
    ensures var u := After(Fresh, LateEvidence(p, c).ops); IsPrivate(u, p) && u.disk == map[p := c]
  {
    var s := LateEvidence(p, c);
    ValidIsCanonical(p);
    assert s.ops[..0] == [];
    assert WriteRefusal(Fresh, p, c, PrivateEvidence).None?;
    assert After(Fresh, s.ops) == Apply(Fresh, s.ops[0]);
  }

  function Republished(p: Path, c: Bytes): Writer {
    Writer(map[p := FileRecord(p, |c|, c, Publishable)], map[], {}, |c|, map[p := c], {}, Parents(p))
  }

  lemma {:induction false} OnePathPasses(p: Path, c: Bytes)
    requires ValidPath(p)
    ensures AuditPasses(map[p := c].Keys, Parents(p), 1) && AuditPasses(map[p := c].Keys, Parents(p), 2)
  {
    OneFileEntries(p);
    assert map[p := c].Keys == {p};
  }

  lemma {:induction false} LateAuthorized(p: Path, c: Bytes)
    requires ValidPath(p)
    ensures var s := LateEvidence(p, c);
      && BindingOk(s.binding) && ManifestOnDisk(map[], s.disk) && PlanOk(map[], s.plan)
      && Authorized(map[], s.disk, s.dirs, {}, s.plan)
  {
    var s := LateEvidence(p, c);
    OnePathPasses(p, c);
    assert s.plan[0].path == p && InPlan(s.plan, 1, p);
  }

  lemma {:induction false} LateRecovers(p: Path, c: Bytes)
    requires ValidPath(p) && |c| <= MAX_ARTIFACT_FILE_BYTES
    ensures var s := LateEvidence(p, c);
      Recover(Resumed(s.binding, s.disk, s.dirs), s.disk.Keys, s.plan) == Ok(Republished(p, c))
  {
    var s := LateEvidence(p, c);
    var w := Resumed(s.binding, s.disk, s.dirs);
    assert p !in Parents(p);
    assert WriteRefusal(w, p, c, Publishable).None?;
    assert w.dirs + Parents(p) == Parents(p);
    assert RecoverWith(RecoverOne, w, s.disk.Keys, s.plan, 0) == Ok(w);
    assert WriteAt(w, p, c, Publishable, NoWriteFault).writer == Republished(p, c);
    assert RecoverOne(w, s.disk.Keys, s.plan[0]) == Ok(Republished(p, c));
  }

  lemma {:induction false} LateBoundary(p: Path, c: Bytes)
    requires ValidPath(p)
    ensures AtBoundary(Republished(p, c)) && AuditPasses(Republished(p, c).disk.Keys, Parents(p), 2)
  {
    OnePathPasses(p, c);
  }

  lemma {:induction false} LateReopen(p: Path, c: Bytes)
    requires ValidPath(p) && |c| <= MAX_ARTIFACT_FILE_BYTES
    ensures Continues(LateEvidence(p, c), Republished(p, c))
  {
    var s := LateEvidence(p, c);
    LateAuthorized(p, c);
    LateRecovers(p, c);
    LateBoundary(p, c);
    assert SumContents(s.plan, 1) == |c| by { assert SumContents(s.plan, 0) == 0; }
  }

  /**
   Undeclared evidence is lost: whatever its path and contents, private evidence written after the
   binding was taken is publishable after a reopening whose plan says so, if only its marker fits.
   */
  lemma {:induction false} LateEvidenceCanBePublished(p: Path, c: Bytes, head: nat)
    requires ValidPath(p) && |c| <= MAX_ARTIFACT_FILE_BYTES
    ensures var s := LateEvidence(p, c);
      && IsLife([Fresh, Republished(p, c)], [s]) && Leaves(Fresh, s) && HandsOut(Fresh, s, [])
      && IsPrivate(After(Fresh, s.ops), p)
      && var files, intent := Republished(p, c).files, Intent(true, true, head);
      && Finalize(Republished(p, c), AsRaw(p), p, intent) ==
         if MarkerFits(files, intent) then Ok(Finalization(files, true)) else Err(MarkerTooLarge)
  {
    LateWrite(p, c);
    LateReopen(p, c);
    ValidIsCanonical(p);
    LateBoundary(p, c);
  }

  lemma {:induction false} AfterConcat(w: Writer, a: seq<Op>, b: seq<Op>)
    ensures After(w, a + b) == After(After(w, a), b)
  {
    if b == [] {
      assert a + b == a;
    } else {
      AfterConcat(w, a, b[..|b| - 1]);
      assert (a + b)[..|a + b| - 1] == a + b[..|b| - 1];
    }
  }
}
