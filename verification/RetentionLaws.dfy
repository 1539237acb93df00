/** What every prune guarantees: ordering, ceilings, conservation, prediction and idempotence. */
module RetentionLaws {
  import opened Wrappers
  import opened Sequences
  import opened Ordering
  import opened Retention

  /** Newest activity first, ties by descending run id. */
  predicate NewestFirst(a: Item, b: Item) {
    a.inventory.modified > b.inventory.modified
    || (a.inventory.modified == b.inventory.modified && TextLe(b.runId, a.runId))
  }

  lemma {:induction false} NewestFirstOrders()
    ensures TotalPreorder(NewestFirst)
  {
    forall a: Item, b: Item ensures NewestFirst(a, b) || NewestFirst(b, a) {
      TextLeTotal(a.runId, b.runId);
    }
    forall a: Item, b: Item, c: Item | NewestFirst(a, b) && NewestFirst(b, c) ensures NewestFirst(a, c) {
      if a.inventory.modified == b.inventory.modified == c.inventory.modified {
        TextLeTransitive(c.runId, b.runId, a.runId);
      }
    }
  }

  /** A prune of a run root: the listing, newest first, through the engine. */
  method PruneArtifacts(listing: seq<Item>, view: View, policy: Policy, now: int, dryRun: bool)
    returns (r: Result<Report, PruneError>)
    requires |listing| <= U64_MAX
    ensures r.Err? <==> Fails(policy, dryRun, now, Sort(listing, NewestFirst), view)
    ensures r.Ok? ==> Reports(policy, dryRun, now, Sort(listing, NewestFirst), view, r.value)
    ensures r.Ok? ==> forall x :: x in listing ==> exists e :: e in r.value.entries && e.runId == x.runId
  {
    var items := Sort(listing, NewestFirst);
    SortMembers(listing, NewestFirst);
    r := Prune(items, view, policy, now, dryRun);
    if r.Ok? {
      PruneConserves(policy, dryRun, now, items, view, r.value);
      forall x | x in listing ensures exists e :: e in r.value.entries && e.runId == x.runId {
        var i :| 0 <= i < |items| && items[i] == x;
        assert r.value.entries[i] in r.value.entries;
      }
    }
  }

  // ----- Selection and the ceilings -----

  /** Selected by count, age or cumulative bytes, the ceilings that apply to every item. */
  predicate OverCeiling(policy: Policy, now: int, items: seq<Item>, i: nat)
    requires i < |items|
  {
    || i >= policy.maxCount
    || Reaches(AgeSeconds(now, items[i].inventory.modified), policy.maxAge)
    || (policy.maxTotalBytes.Some? && BytesUpTo(items, i + 1) > policy.maxTotalBytes.value)
  }

  lemma {:induction false} OlderIsNoYounger(now: int, newer: int, older: int)
    requires older <= newer
    ensures AgeSeconds(now, newer) <= AgeSeconds(now, older)
  {
  }

  /** The three ceilings together select a suffix of the newest-first order. */
  lemma {:induction false} CeilingsSelectSuffix(policy: Policy, now: int, items: seq<Item>, i: nat, j: nat)
    requires Pairwise(items, NewestFirst) && i <= j < |items| && OverCeiling(policy, now, items, i)
    ensures OverCeiling(policy, now, items, j)
  {
    if i < j {
      assert NewestFirst(items[i], items[j]);
      OlderIsNoYounger(now, items[i].inventory.modified, items[j].inventory.modified);
      PrefixBytes(items, i + 1, j + 1);
    }
  }

  lemma {:induction false} SelectedIff(policy: Policy, now: int, items: seq<Item>, i: nat)
    requires i < |items|
    ensures LimitsAt(policy, now, items, i) != [] <==>
            OverCeiling(policy, now, items, i)
            || (!items[i].state.Finalized? &&
              Reaches(AgeSeconds(now, items[i].inventory.modified), policy.unfinalizedGrace))
  {
  }

  lemma {:induction false} KeepIff(policy: Policy, dryRun: bool, now: int, items: seq<Item>, view: View, i: nat)
    requires i < |items| && Outcome(policy, dryRun, now, items, view, i).Ok?
    ensures Outcome(policy, dryRun, now, items, view, i).value.action == Keep <==> LimitsAt(policy, now, items, i) == []
  {
  }

  /** No finalized run goes while an older item stays by choice. */
  lemma {:induction false} NoOlderItemOutlives(policy: Policy, dryRun: bool, now: int, items: seq<Item>, view: View,
      entries: seq<Entry>, i: nat, j: nat)
    requires Pairwise(items, NewestFirst) && Outcomes(policy, dryRun, now, items, view, entries)
    requires i < j < |items| && items[i].state.Finalized? && entries[i].action != Keep
    ensures entries[j].action != Keep
  {
    assert Outcome(policy, dryRun, now, items, view, i) == Ok(entries[i]);
    assert Outcome(policy, dryRun, now, items, view, j) == Ok(entries[j]);
    KeepIff(policy, dryRun, now, items, view, i);
    KeepIff(policy, dryRun, now, items, view, j);
    SelectedIff(policy, now, items, i);
    SelectedIff(policy, now, items, j);
    CeilingsSelectSuffix(policy, now, items, i, j);
  }

  ghost predicate KeptWithin(policy: Policy, n: nat, keptCount: nat, keptBytes: nat, bytes: nat) {
    && keptCount <= n && keptBytes <= bytes
    && keptCount <= policy.maxCount
    && (policy.maxTotalBytes.Some? ==> keptBytes <= policy.maxTotalBytes.value)
  }

  /** Kept items respect the count and the byte ceiling. */
  lemma {:induction false} KeptRespectsCeilings(policy: Policy, dryRun: bool, now: int, items: seq<Item>, view: View,
      entries: seq<Entry>, n: nat)
    requires Outcomes(policy, dryRun, now, items, view, entries) && n <= |items|
    ensures KeptWithin(policy, n, Count(entries[..n], Keep), Bytes(entries[..n], Keep), BytesUpTo(items, n))
  {
    if n > 0 {
      KeptRespectsCeilings(policy, dryRun, now, items, view, entries, n - 1);
      assert entries[..n] == entries[..n - 1] + [entries[n - 1]];
      CountSnoc(entries[..n - 1], entries[n - 1], Keep);
      assert Outcome(policy, dryRun, now, items, view, n - 1) == Ok(entries[n - 1]);
      OutcomeNames(policy, dryRun, now, items, view, n - 1);
      KeepIff(policy, dryRun, now, items, view, n - 1);
      SelectedIff(policy, now, items, n - 1);
    }
  }

  // ----- Conservation -----

  /** Entry by entry, the items' names and sizes. */
  ghost predicate Aligned(items: seq<Item>, entries: seq<Entry>) {
    |entries| == |items| && forall i | 0 <= i < |items| :: Names(entries[i], items[i])
  }

  predicate Names(e: Entry, item: Item) {
    e.runId == item.runId && e.bytes == item.inventory.bytes
  }

  lemma {:induction false} OutcomesAlign(policy: Policy, dryRun: bool, now: int, items: seq<Item>, view: View,
      entries: seq<Entry>)
    requires Outcomes(policy, dryRun, now, items, view, entries)
    ensures Aligned(items, entries)
  {
    forall i | 0 <= i < |items| ensures Names(entries[i], items[i]) {
      assert Outcome(policy, dryRun, now, items, view, i) == Ok(entries[i]);
      OutcomeNames(policy, dryRun, now, items, view, i);
    }
  }

  lemma {:induction false} EntriesShareBytes(items: seq<Item>, entries: seq<Entry>, n: nat)
    requires Aligned(items, entries) && n <= |items|
    ensures Shared(items, n, entries[..n])
  {
    if n > 0 {
      EntriesShareBytes(items, entries, n - 1);
      assert Names(entries[n - 1], items[n - 1]);
      SharedSnoc(items, n - 1, entries[..n - 1], entries[n - 1]);
      assert entries[..n] == entries[..n - 1] + [entries[n - 1]];
    }
  }

  lemma {:induction false} ActionsOfMode(policy: Policy, dryRun: bool, now: int, items: seq<Item>, view: View, i: nat)
    requires i < |items| && Outcome(policy, dryRun, now, items, view, i).Ok?
    ensures Outcome(policy, dryRun, now, items, view, i).value.action != (if dryRun then Delete else WouldDelete)
  {
  }

  lemma {:induction false} NoneOf(entries: seq<Entry>, action: Action)
    requires forall e | e in entries :: e.action != action
    ensures Count(entries, action) == 0 && Bytes(entries, action) == 0
  {
    if entries != [] { NoneOf(entries[..|entries| - 1], action); }
  }

  lemma {:induction false} ModeExcludes(policy: Policy, dryRun: bool, now: int, items: seq<Item>, view: View,
      entries: seq<Entry>)
    requires Outcomes(policy, dryRun, now, items, view, entries)
    ensures var other := if dryRun then Delete else WouldDelete;
            Count(entries, other) == 0 && Bytes(entries, other) == 0
  {
    forall i | 0 <= i < |entries| ensures entries[i].action != (if dryRun then Delete else WouldDelete) {
      assert Outcome(policy, dryRun, now, items, view, i) == Ok(entries[i]);
      ActionsOfMode(policy, dryRun, now, items, view, i);
    }
    NoneOf(entries, if dryRun then Delete else WouldDelete);
  }

  /** Every scanned item and byte is accounted for exactly once, in either mode. */
  lemma {:induction false} PruneConserves(policy: Policy, dryRun: bool, now: int, items: seq<Item>, view: View,
      r: Report)
    requires Reports(policy, dryRun, now, items, view, r)
    ensures |r.entries| == |items| && forall i | 0 <= i < |items| :: r.entries[i].runId == items[i].runId
    ensures r.scannedBytes == Bytes(r.entries, Keep) + r.refusedBytes + r.reclaimedBytes + r.wouldReclaimBytes
    ensures r.keptCount + r.deletedCount + Count(r.entries, WouldDelete) == |items|
    ensures dryRun ==> r.deletedCount == 0 && r.reclaimedBytes == 0 && r.retainedBytes == r.scannedBytes
    ensures !dryRun ==> r.wouldReclaimBytes == 0 && r.keptCount + r.deletedCount == |items|
  {
    OutcomesAlign(policy, dryRun, now, items, view, r.entries);
    EntriesShareBytes(items, r.entries, |items|);
    assert r.entries[..|items|] == r.entries;
    ModeExcludes(policy, dryRun, now, items, view, r.entries);
    forall i | 0 <= i < |items| ensures r.entries[i].runId == items[i].runId {
      assert Names(r.entries[i], items[i]);
    }
  }

  /** After an apply, what stays by choice is within both ceilings. */
  lemma {:induction false} RetainedWithinCeilings(policy: Policy, now: int, items: seq<Item>, view: View, r: Report)
    requires Reports(policy, false, now, items, view, r)
    ensures r.keptCount - r.refusedCount <= policy.maxCount
    ensures policy.maxTotalBytes.Some? ==> r.retainedBytes - r.refusedBytes <= policy.maxTotalBytes.value
  {
    PruneConserves(policy, false, now, items, view, r);
    KeptRespectsCeilings(policy, false, now, items, view, r.entries, |items|);
    assert r.entries[..|items|] == r.entries;
  }

  // ----- What a deletion needs -----

  /** Everything that must hold of an item without a valid finalization before it is reclaimed. */
  ghost predicate MayReclaim(policy: Policy, now: int, item: Item, seen: Observation) {
    && (item.state.InvalidFinalization? ==> policy.reclaimUnverifiable && seen.marker && !seen.readable)
    && (item.state.MissingFinalization? ==> !seen.marker)
    && (item.state.External? ==> policy.externalWritersStopped)
    && (!item.state.External? ==> seen.lock == Acquired || (seen.lock == Missing && policy.externalWritersStopped))
    && Idled(policy.unfinalizedGrace, now, item.inventory)
    && seen.sameIdentity && seen.refreshed.Some? && Idled(policy.unfinalizedGrace, now, seen.refreshed.value)
    && seen.refreshed.value.bytes == item.inventory.bytes
  }

  predicate Idled(grace: Option<nat>, now: int, inventory: Inventory) {
    Reaches(AgeSeconds(now, inventory.modified), grace) && inventory.hazard.None?
  }

  /** An apply reclaims an item exactly when it is selected, every safety condition holds and removal works. */
  lemma {:induction false} DeletesIff(policy: Policy, now: int, items: seq<Item>, view: View, i: nat)
    requires i < |items|
    ensures var o, item, seen := Outcome(policy, false, now, items, view, i), items[i], view(items[i]);
      o.Ok? && o.value.action == Delete <==>
        && LimitsAt(policy, now, items, i) != [] && seen.sameIdentity && seen.removable
        && (if item.state.Finalized? then seen.readable && seen.runLocked && seen.readableLocked
            else MayReclaim(policy, now, item, seen))
  {
  }

  // ----- A dry run predicts an apply -----

  /** The apply entry a dry-run entry announces; only the wording of an expiry differs. */
  predicate Announces(dry: Entry, real_: Entry) {
    && dry.runId == real_.runId && dry.bytes == real_.bytes && dry.ageSeconds == real_.ageSeconds
    && dry.selectedBy == real_.selectedBy
    && (if dry.action == WouldDelete then real_.action == Delete
        else real_.action == dry.action && real_.reason == dry.reason)
  }

  /** A selected finalized run that passes its first validation and loses the one under its lock. */
  predicate LosesValidation(policy: Policy, now: int, items: seq<Item>, view: View, i: nat)
    requires i < |items|
  {
    && LimitsAt(policy, now, items, i) != [] && items[i].state.Finalized?
    && view(items[i]).readable && !view(items[i]).readableLocked
  }

  lemma {:induction false} DryRunPredictsItem(policy: Policy, now: int, items: seq<Item>, view: View, i: nat)
    requires i < |items| && Outcome(policy, false, now, items, view, i).Ok?
    ensures Outcome(policy, true, now, items, view, i).Ok?
    ensures Announces(Outcome(policy, true, now, items, view, i).value,
            Outcome(policy, false, now, items, view, i).value)
            <==> !LosesValidation(policy, now, items, view, i)
  {
  }

  /** Whenever an apply completes, so does the dry run before it. */
  lemma {:induction false} DryRunCompletes(policy: Policy, now: int, items: seq<Item>, view: View)
    requires !Fails(policy, false, now, items, view)
    ensures !Fails(policy, true, now, items, view)
  {
    forall i | 0 <= i < |items| ensures Outcome(policy, true, now, items, view, i).Ok? {
      assert Outcome(policy, false, now, items, view, i).Ok?;
      DryRunPredictsItem(policy, now, items, view, i);
    }
  }

  /** The dry run announces a deletion that the apply refuses. */
  predicate TakesBack(dry: Entry, real_: Entry) {
    dry.bytes == real_.bytes && dry.action == WouldDelete && real_.action == RefuseUnfinalized
  }

  /** How many announced deletions are taken back, and their bytes. */
  function TakenBack(dry: seq<Entry>, real_: seq<Entry>): (nat, nat)
    requires |dry| == |real_|
  {
    if dry == [] then (0, 0)
    else
      var n := |dry| - 1;
      var (count, bytes) := TakenBack(dry[..n], real_[..n]);
      if TakesBack(dry[n], real_[n]) then (count + 1, bytes + dry[n].bytes) else (count, bytes)
  }

  lemma {:induction false} NoneTakenBackIff(dry: seq<Entry>, real_: seq<Entry>)
    requires |dry| == |real_|
    ensures TakenBack(dry, real_).0 == 0 <==> forall i | 0 <= i < |dry| :: !TakesBack(dry[i], real_[i])
    ensures TakenBack(dry, real_).0 == 0 ==> TakenBack(dry, real_).1 == 0
  {
    if dry != [] {
      var n := |dry| - 1;
      NoneTakenBackIff(dry[..n], real_[..n]);
      assert forall i | 0 <= i < n :: dry[..n][i] == dry[i] && real_[..n][i] == real_[i];
    }
  }

  /** The totals of the two reports differ by exactly what is taken back. */
  lemma {:induction false} TotalsApart(dry: seq<Entry>, real_: seq<Entry>)
    requires |dry| == |real_| && forall i | 0 <= i < |dry| :: Announces(dry[i], real_[i]) || TakesBack(dry[i], real_[i])
    ensures var (count, bytes) := TakenBack(dry, real_);
      && Count(dry, Keep) == Count(real_, Keep)
      && Count(dry, RefuseUnfinalized) + count == Count(real_, RefuseUnfinalized)
      && Bytes(dry, RefuseUnfinalized) + bytes == Bytes(real_, RefuseUnfinalized)
      && Bytes(dry, WouldDelete) + Bytes(dry, Delete) == Bytes(real_, Delete) + bytes
  {
    var n := |dry|;
    if n > 0 {
      TotalsApart(dry[..n - 1], real_[..n - 1]);
      assert Announces(dry[n - 1], real_[n - 1]) || TakesBack(dry[n - 1], real_[n - 1]);
    }
  }

  ghost predicate NoneLoses(policy: Policy, now: int, items: seq<Item>, view: View) {
    forall i | 0 <= i < |items| :: !LosesValidation(policy, now, items, view, i)
  }

  lemma {:induction false} EntriesPair(policy: Policy, now: int, items: seq<Item>, view: View, i: nat, real_: Entry,
      dry: Entry)
    requires i < |items| && Outcome(policy, false, now, items, view, i) == Ok(real_)
    requires Outcome(policy, true, now, items, view, i) == Ok(dry)
    ensures if LosesValidation(policy, now, items, view, i) then TakesBack(dry, real_) && !Announces(dry, real_)
            else Announces(dry, real_) && !TakesBack(dry, real_)
  {
    DryRunPredictsItem(policy, now, items, view, i);
  }

  lemma {:induction false} ReportsPair(policy: Policy, now: int, items: seq<Item>, view: View, real_: Report,
      dry: Report)
    requires Reports(policy, false, now, items, view, real_) && Reports(policy, true, now, items, view, dry)
    ensures forall i | 0 <= i < |items| ::
              if LosesValidation(policy, now, items, view, i)
              then TakesBack(dry.entries[i], real_.entries[i]) && !Announces(dry.entries[i], real_.entries[i])
              else Announces(dry.entries[i], real_.entries[i]) && !TakesBack(dry.entries[i], real_.entries[i])
  {
    forall i | 0 <= i < |items|
      ensures if LosesValidation(policy, now, items, view, i)
              then TakesBack(dry.entries[i], real_.entries[i]) && !Announces(dry.entries[i], real_.entries[i])
              else Announces(dry.entries[i], real_.entries[i]) && !TakesBack(dry.entries[i], real_.entries[i])
    {
      assert Outcome(policy, false, now, items, view, i) == Ok(real_.entries[i]);
      assert Outcome(policy, true, now, items, view, i) == Ok(dry.entries[i]);
      EntriesPair(policy, now, items, view, i, real_.entries[i], dry.entries[i]);
    }
  }

  /** A dry run predicts every entry of the apply, and likewise the number refused, iff no run loses validation. */
  lemma {:induction false} DryRunPredicts(policy: Policy, now: int, items: seq<Item>, view: View, real_: Report,
      dry: Report)
    requires Reports(policy, false, now, items, view, real_) && Reports(policy, true, now, items, view, dry)
    ensures (forall i | 0 <= i < |items| :: Announces(dry.entries[i], real_.entries[i])) <==>
            NoneLoses(policy, now, items, view)
    ensures dry.refusedCount == real_.refusedCount <==> NoneLoses(policy, now, items, view)
    ensures dry.keptCount == real_.keptCount <==> NoneLoses(policy, now, items, view)
  {
    ReportsPair(policy, now, items, view, real_, dry);
    TotalsApart(dry.entries, real_.entries);
    NoneTakenBackIff(dry.entries, real_.entries);
  }

  /** Always, the bytes announced but not reclaimed are those refused beyond what was announced as refused. */
  lemma {:induction false} DryRunTotals(policy: Policy, now: int, items: seq<Item>, view: View, real_: Report,
      dry: Report)
    requires Reports(policy, false, now, items, view, real_) && Reports(policy, true, now, items, view, dry)
    ensures var (_, bytes) := TakenBack(dry.entries, real_.entries);
      && dry.wouldReclaimBytes == real_.reclaimedBytes + bytes && dry.refusedBytes + bytes == real_.refusedBytes
      && dry.projectedRetainedBytes + bytes == real_.projectedRetainedBytes == real_.retainedBytes
      && dry.candidateCount == real_.candidateCount
      && (NoneLoses(policy, now, items, view) ==> bytes == 0)
  {
    ReportsPair(policy, now, items, view, real_, dry);
    TotalsApart(dry.entries, real_.entries);
    NoneTakenBackIff(dry.entries, real_.entries);
    ModeExcludes(policy, false, now, items, view, real_.entries);
    ModeExcludes(policy, true, now, items, view, dry.entries);
  }

  /**
   * The prediction fails whenever the only item is such a run and the apply completes: the dry run
   * announces a deletion that the apply refuses.
   */
  lemma {:induction false} LostValidationMispredicts(policy: Policy, now: int, item: Item, view: View)
    requires LosesValidation(policy, now, [item], view, 0) && view(item).sameIdentity && view(item).runLocked
    ensures var real_, dry := Outcome(policy, false, now, [item], view, 0), Outcome(policy, true, now, [item], view, 0);
      && real_.Ok? && dry.Ok? && !Announces(dry.value, real_.value)
      && dry.value.action == WouldDelete && real_.value.action == RefuseUnfinalized
  {
    DryRunPredictsItem(policy, now, [item], view, 0);
  }

  /** Such a run exists for every item that finalized, under a policy that keeps no runs. */
  lemma {:induction false} ValidationCanBeLost(runId: string, inventory: Inventory, now: int)
    returns (policy: Policy, item: Item, view: View)
    ensures item.runId == runId && item.inventory == inventory
    ensures LosesValidation(policy, now, [item], view, 0) && view(item).sameIdentity && view(item).runLocked
  {
    policy := Policy(0, None, None, None, false, false);
    item := Item(runId, Finalized, inventory);
    view := (x: Item) => Observation(Acquired, true, true, true, true, false, Some(inventory), true);
  }

  /** An apply that follows a completed dry run stops iff an announced deletion cannot be carried out. */
  lemma {:induction false} ApplyStopsIff(policy: Policy, now: int, items: seq<Item>, view: View)
    requires !Stopped(policy, true, now, items, view)
    ensures Stopped(policy, false, now, items, view) <==>
            exists i | 0 <= i < |items| :: CannotCarryOut(policy, now, items, view, i)
  {
    forall i | 0 <= i < |items|
      ensures Outcome(policy, false, now, items, view, i).Err? <==> CannotCarryOut(policy, now, items, view, i)
    {
      assert Outcome(policy, true, now, items, view, i).Ok?;
      ApplyStopsAt(policy, now, items, view, i);
    }
    if Stopped(policy, false, now, items, view) {
      var i :| 0 <= i < |items| && Outcome(policy, false, now, items, view, i).Err?;
      assert CannotCarryOut(policy, now, items, view, i);
    } else {
      forall i | 0 <= i < |items| ensures !CannotCarryOut(policy, now, items, view, i) {
        assert Outcome(policy, false, now, items, view, i).Ok?;
      }
    }
  }

  predicate CannotCarryOut(policy: Policy, now: int, items: seq<Item>, view: View, i: nat)
    requires i < |items|
  {
    var dry, seen := Outcome(policy, true, now, items, view, i), view(items[i]);
    && dry.Ok? && dry.value.action == WouldDelete
    && (if items[i].state.Finalized? then
      !seen.sameIdentity || !seen.runLocked || (seen.readableLocked && !seen.removable)
        else !seen.removable)
  }

  lemma {:induction false} ApplyStopsAt(policy: Policy, now: int, items: seq<Item>, view: View, i: nat)
    requires i < |items| && Outcome(policy, true, now, items, view, i).Ok?
    ensures Outcome(policy, false, now, items, view, i).Err? <==> CannotCarryOut(policy, now, items, view, i)
  {
  }

  // ----- Idempotence -----

  /** The items an apply leaves in the run root, in listing order. */
  function Survivors(items: seq<Item>, entries: seq<Entry>): seq<Item>
    requires |items| == |entries|
  {
    if items == [] then []
    else
      var n := |items| - 1;
      Survivors(items[..n], entries[..n]) + (if entries[n].action == Delete then [] else [items[n]])
  }

  /** A survivor was not deleted, and stands no later and behind no more bytes than before. */
  lemma {:induction false} SurvivorOrigin(items: seq<Item>, entries: seq<Entry>, j: nat) returns (i: nat)
    requires |items| == |entries| && j < |Survivors(items, entries)|
    ensures j <= i < |items| && Survivors(items, entries)[j] == items[i] && entries[i].action != Delete
    ensures BytesUpTo(Survivors(items, entries), j + 1) <= BytesUpTo(items, i + 1)
    decreases |items|
  {
    var n := |items| - 1;
    var init := Survivors(items[..n], entries[..n]);
    if j < |init| {
      i := SurvivorOrigin(items[..n], entries[..n], j);
      BytesOfPrefix(init, Survivors(items, entries), j + 1);
      BytesOfPrefix(items[..n], items, i + 1);
    } else {
      i := n;
      SurvivorsShrink(items[..n], entries[..n]);
      BytesOfPrefix(init, Survivors(items, entries), |init|);
      BytesOfPrefix(items[..n], items, n);
    }
  }

  lemma {:induction false} BytesOfPrefix(s: seq<Item>, t: seq<Item>, n: nat)
    requires n <= |s| && s <= t
    ensures BytesUpTo(s, n) == BytesUpTo(t, n)
  {
    if n > 0 { BytesOfPrefix(s, t, n - 1); }
  }

  lemma {:induction false} SurvivorsShrink(items: seq<Item>, entries: seq<Entry>)
    requires |items| == |entries|
    ensures |Survivors(items, entries)| <= |items|
    ensures BytesUpTo(Survivors(items, entries), |Survivors(items, entries)|) <= BytesUpTo(items, |items|)
    ensures LogBytesUpTo(Survivors(items, entries), |Survivors(items, entries)|) <= LogBytesUpTo(items, |items|)
    ensures forall x | x in Survivors(items, entries) :: x in items
  {
    if items != [] {
      var n := |items| - 1;
      var init, all := Survivors(items[..n], entries[..n]), Survivors(items, entries);
      SurvivorsShrink(items[..n], entries[..n]);
      BytesOfPrefix(items[..n], items, n);
      BytesOfPrefix(init, all, |init|);
      LogBytesOfPrefix(items[..n], items, n);
      LogBytesOfPrefix(init, all, |init|);
    }
  }

  lemma {:induction false} LogBytesOfPrefix(s: seq<Item>, t: seq<Item>, n: nat)
    requires n <= |s| && s <= t
    ensures LogBytesUpTo(s, n) == LogBytesUpTo(t, n)
  {
    if n > 0 { LogBytesOfPrefix(s, t, n - 1); }
  }

  lemma {:induction false} SurvivorsPairwise(items: seq<Item>, entries: seq<Entry>, rel: (Item, Item) -> bool)
    requires |items| == |entries| && Pairwise(items, rel)
    ensures Pairwise(Survivors(items, entries), rel)
  {
    if items != [] {
      var n := |items| - 1;
      SurvivorsPairwise(items[..n], entries[..n], rel);
      SurvivorsShrink(items[..n], entries[..n]);
      if entries[n].action != Delete {
        var init := Survivors(items[..n], entries[..n]);
        forall y | y in init ensures rel(y, items[n]) {
          var k :| 0 <= k < n && items[..n][k] == y;
        }
        PairwiseSnoc(init, items[n], rel);
      }
    }
  }

  /** Fewer earlier items and bytes select by no more limits. */
  lemma {:induction false} LimitsWeaken(policy: Policy, now: int, few: seq<Item>, j: nat, many: seq<Item>, i: nat)
    requires j < |few| && i < |many| && few[j] == many[i] && j <= i && BytesUpTo(few, j + 1) <= BytesUpTo(many, i + 1)
    requires LimitsAt(policy, now, many, i) == []
    ensures LimitsAt(policy, now, few, j) == []
  {
    SelectedIff(policy, now, many, i);
    SelectedIff(policy, now, few, j);
  }

  lemma {:induction false} SurvivorStays(policy: Policy, now: int, few: seq<Item>, j: nat, many: seq<Item>, i: nat,
      view: View)
    requires j < |few| && i < |many| && few[j] == many[i] && j <= i && BytesUpTo(few, j + 1) <= BytesUpTo(many, i + 1)
    requires Outcome(policy, false, now, many, view, i).Ok?
    requires Outcome(policy, false, now, many, view, i).value.action != Delete
    ensures Outcome(policy, false, now, few, view, j).Ok?
    ensures Outcome(policy, false, now, few, view, j).value.action != Delete
  {
    if LimitsAt(policy, now, many, i) == [] {
      LimitsWeaken(policy, now, few, j, many, i);
    }
  }

  /** A second apply over the survivors completes and deletes nothing. */
  lemma {:induction false} SecondApplyDeletesNothing(policy: Policy, now: int, items: seq<Item>, view: View,
      entries: seq<Entry>)
    requires Outcomes(policy, false, now, items, view, entries)
    ensures var left := Survivors(items, entries);
      forall j | 0 <= j < |left| ::
        Outcome(policy, false, now, left, view, j).Ok? &&
          Outcome(policy, false, now, left, view, j).value.action != Delete
  {
    var left := Survivors(items, entries);
    forall j | 0 <= j < |left|
      ensures Outcome(policy, false, now, left, view, j).Ok?
      ensures Outcome(policy, false, now, left, view, j).value.action != Delete
    {
      var i := SurvivorOrigin(items, entries, j);
      assert Outcome(policy, false, now, items, view, i) == Ok(entries[i]);
      SurvivorStays(policy, now, left, j, items, i, view);
    }
  }

  predicate DifferentRuns(a: Item, b: Item) {
    a.runId != b.runId
  }

  lemma {:induction false} TiesAreEqual(items: seq<Item>)
    requires Pairwise(items, DifferentRuns)
    ensures forall x, y | x in items && y in items :: NewestFirst(x, y) && NewestFirst(y, x) ==> x == y
  {
    forall x, y | x in items && y in items && NewestFirst(x, y) && NewestFirst(y, x) ensures x == y {
      var i :| 0 <= i < |items| && items[i] == x;
      var j :| 0 <= j < |items| && items[j] == y;
      assert i < j ==> DifferentRuns(items[i], items[j]);
      assert j < i ==> DifferentRuns(items[j], items[i]);
      TextLeTotal(x.runId, y.runId);
    }
  }

  /** However the survivors are listed next time, sorting puts them back in the same order. */
  lemma {:induction false} RelistedInOrder(items: seq<Item>, entries: seq<Entry>, listing: seq<Item>)
    requires |items| == |entries| && Pairwise(items, NewestFirst) && Pairwise(items, DifferentRuns)
    requires multiset(listing) == multiset(Survivors(items, entries))
    ensures Sort(listing, NewestFirst) == Survivors(items, entries)
  {
    var left := Survivors(items, entries);
    SurvivorsPairwise(items, entries, NewestFirst);
    SurvivorsPairwise(items, entries, DifferentRuns);
    NewestFirstOrders();
    SortSorted(listing, NewestFirst);
    TiesAreEqual(left);
    SortedUnique(left, Sort(listing, NewestFirst), NewestFirst);
  }

  /** A completed apply that finds nothing to delete. */
  ghost predicate Quiet(policy: Policy, now: int, items: seq<Item>, view: View) {
    && !Fails(policy, false, now, items, view)
    && forall r | Reports(policy, false, now, items, view, r) ::
         r.deletedCount == 0 && r.reclaimedBytes == 0 && r.keptCount == |items|
  }

  lemma {:induction false} NothingDeleted(policy: Policy, now: int, items: seq<Item>, view: View, entries: seq<Entry>)
    requires Outcomes(policy, false, now, items, view, entries)
    requires forall j | 0 <= j < |items| ::
      Outcome(policy, false, now, items, view, j).Ok? &&
        Outcome(policy, false, now, items, view, j).value.action != Delete
    ensures Count(entries, Delete) == 0 && Bytes(entries, Delete) == 0
  {
    forall e | e in entries ensures e.action != Delete {
      var j :| 0 <= j < |entries| && entries[j] == e;
      assert Outcome(policy, false, now, items, view, j) == Ok(entries[j]);
    }
    NoneOf(entries, Delete);
  }

  lemma {:induction false} NothingDeletedIsQuiet(policy: Policy, now: int, items: seq<Item>, view: View)
    requires BytesUpTo(items, |items|) <= U64_MAX && LogBytesUpTo(items, |items|) <= U64_MAX
    requires forall j | 0 <= j < |items| ::
      Outcome(policy, false, now, items, view, j).Ok? &&
        Outcome(policy, false, now, items, view, j).value.action != Delete
    ensures Quiet(policy, now, items, view)
  {
    forall r | Reports(policy, false, now, items, view, r)
      ensures r.deletedCount == 0 && r.reclaimedBytes == 0 && r.keptCount == |items|
    {
      NothingDeleted(policy, now, items, view, r.entries);
      PruneConserves(policy, false, now, items, view, r);
    }
  }

  /**
   * Pruning is idempotent: after a completed apply, an apply with the same policy and clock over
   * the unchanged survivors, listed in any order, completes, deletes nothing and keeps every run.
   */
  lemma {:induction false} PruneIsIdempotent(policy: Policy, now: int, listing: seq<Item>, view: View,
      first: seq<Entry>, relisting: seq<Item>)
    requires Pairwise(listing, DifferentRuns)
    requires !Fails(policy, false, now, Sort(listing, NewestFirst), view)
    requires Outcomes(policy, false, now, Sort(listing, NewestFirst), view, first)
    requires multiset(relisting) == multiset(Survivors(Sort(listing, NewestFirst), first))
    ensures Quiet(policy, now, Sort(relisting, NewestFirst), view)
  {
    var items := Sort(listing, NewestFirst);
    var left := Survivors(items, first);
    assert Sort(relisting, NewestFirst) == left by {
      NewestFirstOrders();
      SortSorted(listing, NewestFirst);
      SortPairwise(listing, NewestFirst, DifferentRuns);
      RelistedInOrder(items, first, relisting);
    }
    SurvivorsShrink(items, first);
    SecondApplyDeletesNothing(policy, now, items, view, first);
    NothingDeletedIsQuiet(policy, now, left, view);
  }

  // ----- Survivors that changed -----

  /** The state a new listing gives a run that looks as it did on the second look. */
  function RelistedState(state: ItemState, seen: Observation): ItemState {
    if state.External? then External
    else if seen.readable then Finalized
    else if seen.marker then InvalidFinalization
    else MissingFinalization
  }

  /** The run as a new listing finds it: what the second look of the first apply saw. */
  function Relisted(item: Item, seen: Observation): Item
    requires seen.refreshed.Some?
  {
    Item(item.runId, RelistedState(item.state, seen), seen.refreshed.value)
  }

  /** The run is as listed, nobody writes to it, and it can be removed. */
  predicate Settled(item: Item, seen: Observation) {
    && seen.lock.Acquired? && seen.sameIdentity && seen.removable && seen.refreshed == Some(item.inventory)
    && (item.state.Finalized? ==> seen.readable && seen.runLocked && seen.readableLocked)
    && (item.state.MissingFinalization? ==> !seen.marker)
    && (item.state.InvalidFinalization? ==> seen.marker && !seen.readable)
  }

  predicate StateReclaimable(policy: Policy, state: ItemState) {
    (state.InvalidFinalization? ==> policy.reclaimUnverifiable) && (state.External? ==> policy.externalWritersStopped)
  }

  /**
   * Any survivor of an apply that has settled into what its second look saw is reclaimed by the next
   * one exactly when that makes it a selected finalized run, or one that idled past its grace period
   * in a state the policy reclaims.
   */
  lemma {:induction false} SettledIsReclaimedIff(policy: Policy, now: int, item: Item, seen: Observation,
      items: seq<Item>, view: View, j: nat)
    requires seen.refreshed.Some? && j < |items| && items[j] == Relisted(item, seen)
    requires Settled(items[j], view(items[j]))
    ensures var o, state := Outcome(policy, false, now, items, view, j), RelistedState(item.state, seen);
      o.Ok? && o.value.action == Delete <==>
        if state.Finalized? then LimitsAt(policy, now, items, j) != []
        else Idled(policy.unfinalizedGrace, now, seen.refreshed.value) && StateReclaimable(policy, state)
  {
    DeletesIff(policy, now, items, view, j);
  }

  /** The outcome of one item is the deletion of it, or a refusal for the given reason. */
  predicate Deleted(o: Result<Entry, PruneError>) { o.Ok? && o.value.action == Delete }

  predicate RefusedFor(o: Result<Entry, PruneError>, reason: Reason) {
    o.Ok? && o.value.action == RefuseUnfinalized && o.value.reason == Some(reason)
  }

  /**
   * A run refused because it was changing goes next time exactly when it was only its size that
   * changed. The reader accepts no run without its marker.
   */
  lemma {:induction false} ChangedRunIsReclaimedIff(policy: Policy, now: int, items: seq<Item>, view: View, i: nat,
      items': seq<Item>, view': View, j: nat)
    requires i < |items| && RefusedFor(Outcome(policy, false, now, items, view, i), Changed)
    requires view(items[i]).refreshed.Some? && j < |items'| && items'[j] == Relisted(items[i], view(items[i]))
    requires Settled(items'[j], view'(items'[j])) && (view(items[i]).readable ==> view(items[i]).marker)
    ensures Deleted(Outcome(policy, false, now, items', view', j)) <==>
            Reaches(AgeSeconds(now, view(items[i]).refreshed.value.modified), policy.unfinalizedGrace)
  {
    SettledIsReclaimedIff(policy, now, items[i], view(items[i]), items', view', j);
  }

  /**
   * A finalized run refused because its finalization was gone is relisted as an unfinalized one; it
   * goes next time exactly when it has idled, and a marker that is left may be overruled.
   */
  lemma {:induction false} LostRunIsReclaimedIff(policy: Policy, now: int, items: seq<Item>, view: View, i: nat,
      items': seq<Item>, view': View, j: nat)
    requires i < |items| && RefusedFor(Outcome(policy, false, now, items, view, i), LostFinalization)
    requires view(items[i]).refreshed.Some? && j < |items'| && items'[j] == Relisted(items[i], view(items[i]))
    requires Settled(items'[j], view'(items'[j]))
    ensures items'[j].state == if view(items[i]).marker then InvalidFinalization else MissingFinalization
    ensures Deleted(Outcome(policy, false, now, items', view', j)) <==>
            && Idled(policy.unfinalizedGrace, now, view(items[i]).refreshed.value)
            && (view(items[i]).marker ==> policy.reclaimUnverifiable)
  {
    SettledIsReclaimedIff(policy, now, items[i], view(items[i]), items', view', j);
  }

  /** Survivors that changed are another matter: a run refused because it was written to can go next time. */
  lemma {:induction false} SettledRunIsReclaimedLater()
    returns (policy: Policy, now: int, before: Item, racing: View, after: Item, settled: View)
    ensures before.runId == after.runId
    ensures var first := Outcome(policy, false, now, [before], racing, 0);
      first.Ok? && first.value.action == RefuseUnfinalized && first.value.reason == Some(Changed)
    ensures racing(before).refreshed == Some(after.inventory) == settled(after).refreshed
    ensures var second := Outcome(policy, false, now, [after], settled, 0);
      second.Ok? && second.value.action == Delete
  {
    policy := Policy(0, None, None, Some(0), false, false);
    now := 0;
    before := Item("run", MissingFinalization, Inventory(1, 0, 0, None));
    after := before.(inventory := Inventory(2, 0, 0, None));
    racing := (x: Item) => Observation(Acquired, true, false, false, true, false, Some(Inventory(2, 0, 0, None)), true);
    settled := racing;
  }
}
