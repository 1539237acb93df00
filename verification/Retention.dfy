/** The artifact retention engine: which runs a prune keeps, refuses to touch, and reclaims. */
module Retention {
  import opened Wrappers

  const U64_MAX: nat := 0xFFFF_FFFF_FFFF_FFFF
  const NANOS_PER_SECOND := 1_000_000_000

  type U64 = x: int | 0 <= x <= U64_MAX

  datatype ItemState = Finalized | MissingFinalization | InvalidFinalization | External

  /** A bounded walk of one run: sizes, latest activity in nanoseconds, first unsafe entry. */
  datatype Inventory = Inventory(bytes: U64, logBytes: U64, modified: int, hazard: Option<string>)

  datatype Item = Item(runId: string, state: ItemState, inventory: Inventory)

  datatype Policy = Policy(
    maxCount: nat, maxAge: Option<nat>, maxTotalBytes: Option<nat>, unfinalizedGrace: Option<nat>,
    reclaimUnverifiable: bool, externalWritersStopped: bool)

  datatype WriterLock = Acquired | Busy | Missing | LockFails

  /**
   * What pruning sees when it comes back to an item after the inventory: its writer lock, whether
   * the directory is still the same one, its marker, whether the reader accepts it (before and
   * under its run lock), a second inventory, and whether quarantine and removal succeed.
   */
  datatype Observation = Observation(
    lock: WriterLock, sameIdentity: bool, marker: bool, readable: bool, runLocked: bool,
    readableLocked: bool, refreshed: Option<Inventory>, removable: bool)

  type View = Item -> Observation

  datatype Limit = MaxCount | MaxAge | MaxTotalBytes | UnfinalizedGrace

  datatype Action = Keep | RefuseUnfinalized | WouldDelete | Delete

  datatype Reason =
    | Unverifiable | WritersNotStopped | NoGrace | Fresh(grace: nat) | Unsafe(why: string)
    | WriterActive | LegacyWriters | FinalizationChanged | BecameUnsafe(why: string) | Changed
    | Idle(grace: nat) | Expired(state: ItemState, grace: nat)
    | LostFinalization | LostFinalizationWaiting

  datatype Entry = Entry(
    runId: string, bytes: U64, ageSeconds: nat, action: Action, selectedBy: seq<Limit>, reason: Option<Reason>)

  datatype PruneError = Overflow | IdentityChanged | LockError | InventoryError | RemovalError

  function AgeSeconds(now: int, modified: int): nat {
    if now < modified then 0 else (now - modified) / NANOS_PER_SECOND
  }

  predicate Reaches(age: nat, limit: Option<nat>) {
    limit.Some? && age >= limit.value
  }

  function SelectedBy(policy: Policy, now: int, index: nat, cumulative: nat, item: Item): seq<Limit> {
    var age := AgeSeconds(now, item.inventory.modified);
    (if index >= policy.maxCount then [MaxCount] else [])
    + (if Reaches(age, policy.maxAge) then [MaxAge] else [])
    + (if policy.maxTotalBytes.Some? && cumulative > policy.maxTotalBytes.value then [MaxTotalBytes] else [])
    + (if !item.state.Finalized? && Reaches(age, policy.unfinalizedGrace) then [UnfinalizedGrace] else [])
  }

  datatype Verdict = Verdict(action: Action, ageSeconds: nat, reason: Option<Reason>)

  function Refuse(age: nat, reason: Reason): Verdict {
    Verdict(RefuseUnfinalized, age, Some(reason))
  }

  predicate FinalizationMoved(item: Item, seen: Observation) {
    match item.state
    case MissingFinalization => seen.marker
    case InvalidFinalization => !seen.marker || seen.readable
    case External => false
    case Finalized => false
  }

  /** The gates of a selected item without a valid finalization, up to the second look at it. */
  function GateUnfinalized(policy: Policy, dryRun: bool, now: int, item: Item,
      seen: Observation): Result<Verdict, PruneError> {
    var age := AgeSeconds(now, item.inventory.modified);
    if item.state.InvalidFinalization? && !policy.reclaimUnverifiable then Ok(Refuse(age, Unverifiable))
    else if item.state.External? && !policy.externalWritersStopped then Ok(Refuse(age, WritersNotStopped))
    else if policy.unfinalizedGrace.None? then Ok(Refuse(age, NoGrace))
    else if age < policy.unfinalizedGrace.value then Ok(Refuse(age, Fresh(policy.unfinalizedGrace.value)))
    else if item.inventory.hazard.Some? then Ok(Refuse(age, Unsafe(item.inventory.hazard.value)))
    else if !item.state.External? && seen.lock.LockFails? then Err(LockError)
    else if !item.state.External? && seen.lock.Busy? then Ok(Refuse(age, WriterActive))
    else if !item.state.External? && seen.lock.Missing? && !policy.externalWritersStopped then
      Ok(Refuse(age, LegacyWriters))
    else if !seen.sameIdentity then Err(IdentityChanged)
    else if FinalizationMoved(item, seen) then Ok(Refuse(age, FinalizationChanged))
    else if seen.refreshed.None? then Err(InventoryError)
    else GateRefreshed(policy.unfinalizedGrace.value, dryRun, now, item, seen.refreshed.value, seen.removable)
  }

  /** The gates after the second inventory. */
  function GateRefreshed(grace: nat, dryRun: bool, now: int, item: Item, refreshed: Inventory,
      removable: bool): Result<Verdict, PruneError> {
    var age := AgeSeconds(now, refreshed.modified);
    if refreshed.hazard.Some? then Ok(Refuse(age, BecameUnsafe(refreshed.hazard.value)))
    else if age < grace || refreshed.bytes != item.inventory.bytes then Ok(Refuse(age, Changed))
    else if dryRun then Ok(Verdict(WouldDelete, age, Some(Idle(grace))))
    else if !removable then Err(RemovalError)
    else Ok(Verdict(Delete, age, Some(Expired(item.state, grace))))
  }

  function GateFinalized(dryRun: bool, age: nat, seen: Observation): Result<Verdict, PruneError> {
    if !seen.readable then Ok(Refuse(age, LostFinalization))
    else if dryRun then Ok(Verdict(WouldDelete, age, None))
    else if !seen.sameIdentity then Err(IdentityChanged)
    else if !seen.runLocked then Err(LockError)
    else if !seen.readableLocked then Ok(Refuse(age, LostFinalizationWaiting))
    else if !seen.removable then Err(RemovalError)
    else Ok(Verdict(Delete, age, None))
  }

  function Gate(policy: Policy, dryRun: bool, now: int, item: Item, seen: Observation): Result<Verdict, PruneError> {
    if item.state.Finalized? then GateFinalized(dryRun, AgeSeconds(now, item.inventory.modified), seen)
    else GateUnfinalized(policy, dryRun, now, item, seen)
  }

  function Decide(policy: Policy, dryRun: bool, now: int, item: Item, seen: Observation,
      selected: seq<Limit>): Result<Entry, PruneError> {
    if selected == [] then
      Ok(Entry(item.runId, item.inventory.bytes, AgeSeconds(now, item.inventory.modified), Keep, [], None))
    else
      match Gate(policy, dryRun, now, item, seen)
      case Err(error) => Err(error)
      case Ok(v) => Ok(Entry(item.runId, item.inventory.bytes, v.ageSeconds, v.action, selected, v.reason))
  }

  function BytesUpTo(items: seq<Item>, n: nat): nat
    requires n <= |items|
  {
    if n == 0 then 0 else BytesUpTo(items, n - 1) + items[n - 1].inventory.bytes
  }

  function LogBytesUpTo(items: seq<Item>, n: nat): nat
    requires n <= |items|
  {
    if n == 0 then 0 else LogBytesUpTo(items, n - 1) + items[n - 1].inventory.logBytes
  }

  function UnfinalizedUpTo(items: seq<Item>, n: nat): nat
    requires n <= |items|
  {
    if n == 0 then 0
    else UnfinalizedUpTo(items, n - 1) + (if items[n - 1].state.Finalized? then 0 else items[n - 1].inventory.bytes)
  }

  function LimitsAt(policy: Policy, now: int, items: seq<Item>, i: nat): seq<Limit>
    requires i < |items|
  {
    SelectedBy(policy, now, i, BytesUpTo(items, i + 1), items[i])
  }

  /** What becomes of item `i` of the newest-first list, stated without the loop. */
  function Outcome(policy: Policy, dryRun: bool, now: int, items: seq<Item>, view: View,
      i: nat): Result<Entry, PruneError>
    requires i < |items|
  {
    Decide(policy, dryRun, now, items[i], view(items[i]), LimitsAt(policy, now, items, i))
  }

  function Count(entries: seq<Entry>, action: Action): nat {
    if entries == [] then 0
    else Count(entries[..|entries| - 1], action) + (if entries[|entries| - 1].action == action then 1 else 0)
  }

  function Bytes(entries: seq<Entry>, action: Action): nat {
    if entries == [] then 0
    else
      Bytes(entries[..|entries| - 1], action)
      + (if entries[|entries| - 1].action == action then entries[|entries| - 1].bytes else 0)
  }

  lemma {:induction false} CountSnoc(entries: seq<Entry>, e: Entry, action: Action)
    ensures Count(entries + [e], action) == Count(entries, action) + (if e.action == action then 1 else 0)
    ensures Bytes(entries + [e], action) == Bytes(entries, action) + (if e.action == action then e.bytes else 0)
  {
    assert (entries + [e])[..|entries|] == entries;
  }

  lemma {:induction false} Snoc(entries: seq<Entry>, e: Entry)
    ensures forall a :: Count(entries + [e], a) == Count(entries, a) + (if e.action == a then 1 else 0)
    ensures forall a :: Bytes(entries + [e], a) == Bytes(entries, a) + (if e.action == a then e.bytes else 0)
  {
    forall a { CountSnoc(entries, e, a); }
  }

  lemma {:induction false} PrefixBytes(items: seq<Item>, n: nat, m: nat)
    requires n <= m <= |items|
    ensures BytesUpTo(items, n) <= BytesUpTo(items, m)
    ensures LogBytesUpTo(items, n) <= LogBytesUpTo(items, m)
    decreases m
  {
    if n < m { PrefixBytes(items, n, m - 1); }
  }

  lemma {:induction false} UnfinalizedWithin(items: seq<Item>, n: nat)
    requires n <= |items|
    ensures UnfinalizedUpTo(items, n) <= BytesUpTo(items, n)
  {
    if n > 0 { UnfinalizedWithin(items, n - 1); }
  }

  datatype Report = Report(
    dryRun: bool, keptCount: nat, deletedCount: nat, refusedCount: nat, candidateCount: nat,
    scannedBytes: nat, retainedBytes: nat, projectedRetainedBytes: nat, reclaimedBytes: nat,
    wouldReclaimBytes: nat, refusedBytes: nat, unfinalizedBytes: nat, logBytes: nat, entries: seq<Entry>)

  /** The report is the pointwise outcomes and their plain totals. */
  ghost predicate Reports(policy: Policy, dryRun: bool, now: int, items: seq<Item>, view: View, r: Report) {
    && r.dryRun == dryRun && Outcomes(policy, dryRun, now, items, view, r.entries)
    && Totals(items, r)
  }

  ghost predicate Outcomes(policy: Policy, dryRun: bool, now: int, items: seq<Item>, view: View, entries: seq<Entry>) {
    |entries| == |items| && forall i | 0 <= i < |items| ::
      Outcome(policy, dryRun, now, items, view, i) == Ok(entries[i])
  }

  ghost predicate Totals(items: seq<Item>, r: Report) {
    && r.keptCount == Count(r.entries, Keep) + Count(r.entries, RefuseUnfinalized)
    && r.refusedCount == Count(r.entries, RefuseUnfinalized)
    && r.deletedCount == Count(r.entries, Delete)
    && r.candidateCount == |r.entries| - Count(r.entries, Keep)
    && r.scannedBytes == BytesUpTo(items, |items|)
    && r.reclaimedBytes == Bytes(r.entries, Delete)
    && r.wouldReclaimBytes == Bytes(r.entries, WouldDelete)
    && r.refusedBytes == Bytes(r.entries, RefuseUnfinalized)
    && r.retainedBytes == r.scannedBytes - r.reclaimedBytes
    && r.projectedRetainedBytes == r.scannedBytes - (if r.dryRun then r.wouldReclaimBytes else r.reclaimedBytes)
    && r.unfinalizedBytes == UnfinalizedUpTo(items, |items|)
    && r.logBytes == LogBytesUpTo(items, |items|)
  }

  /** A prune fails exactly when an initial total overflows or some item stops it. */
  ghost predicate Fails(policy: Policy, dryRun: bool, now: int, items: seq<Item>, view: View) {
    || BytesUpTo(items, |items|) > U64_MAX
    || LogBytesUpTo(items, |items|) > U64_MAX
    || Stopped(policy, dryRun, now, items, view)
  }

  ghost predicate Stopped(policy: Policy, dryRun: bool, now: int, items: seq<Item>, view: View) {
    exists i | 0 <= i < |items| :: Outcome(policy, dryRun, now, items, view, i).Err?
  }

  function CheckedAdd(a: U64, b: U64): Option<U64> {
    if a + b <= U64_MAX then Some(a + b) else None
  }

  function SaturatingAdd(a: U64, b: U64): U64 {
    if a + b <= U64_MAX then a + b else U64_MAX
  }

  function SaturatingSub(a: U64, b: U64): U64 {
    if a >= b then a - b else 0
  }

  method ScanTotals(items: seq<Item>) returns (r: Option<(U64, U64, U64)>)
    ensures r.Some? <==> BytesUpTo(items, |items|) <= U64_MAX && LogBytesUpTo(items, |items|) <= U64_MAX
    ensures r.Some? ==>
            r.value == (BytesUpTo(items, |items|), LogBytesUpTo(items, |items|), UnfinalizedUpTo(items, |items|))
  {
    var scanned: U64, logs: U64, unfinalized: U64 := 0, 0, 0;
    for n := 0 to |items|
      invariant scanned == BytesUpTo(items, n)
    {
      PrefixBytes(items, n + 1, |items|);
      var sum := CheckedAdd(scanned, items[n].inventory.bytes);
      if sum.None? { return None; }
      scanned := sum.value;
    }
    for n := 0 to |items|
      invariant logs == LogBytesUpTo(items, n)
    {
      PrefixBytes(items, n + 1, |items|);
      var sum := CheckedAdd(logs, items[n].inventory.logBytes);
      if sum.None? { return None; }
      logs := sum.value;
    }
    for n := 0 to |items|
      invariant unfinalized == UnfinalizedUpTo(items, n)
    {
      UnfinalizedWithin(items, n + 1);
      PrefixBytes(items, n + 1, |items|);
      if !items[n].state.Finalized? {
        var sum := CheckedAdd(unfinalized, items[n].inventory.bytes);
        if sum.None? { return None; }
        unfinalized := sum.value;
      }
    }
    return Some((scanned, logs, unfinalized));
  }

  /** Every entry is one item's, so the four actions share out the counts and the bytes. */
  ghost predicate Shared(items: seq<Item>, n: nat, entries: seq<Entry>)
    requires n <= |items|
  {
    && Count(entries, Keep) + Count(entries, RefuseUnfinalized) + Count(entries, WouldDelete)
       + Count(entries, Delete) == n
    && Bytes(entries, Keep) + Bytes(entries, RefuseUnfinalized) + Bytes(entries, WouldDelete)
       + Bytes(entries, Delete) == BytesUpTo(items, n)
  }

  lemma {:induction false} SharedSnoc(items: seq<Item>, n: nat, entries: seq<Entry>, e: Entry)
    requires n < |items| && Shared(items, n, entries) && e.bytes == items[n].inventory.bytes
    ensures Shared(items, n + 1, entries + [e])
  {
    Snoc(entries, e);
  }

  lemma {:induction false} OutcomeNames(policy: Policy, dryRun: bool, now: int, items: seq<Item>, view: View, i: nat)
    requires i < |items| && Outcome(policy, dryRun, now, items, view, i).Ok?
    ensures var e := Outcome(policy, dryRun, now, items, view, i).value;
      e.runId == items[i].runId && e.bytes == items[i].inventory.bytes
  {
  }

  /** The loop's running counters. */
  datatype Tally = Tally(
    kept: nat, deleted: nat, refused: nat, candidates: nat, reclaimed: nat, would: nat, refusedBytes: nat)

  ghost function TallyOf(entries: seq<Entry>): Tally
    requires Count(entries, Keep) <= |entries|
  {
    Tally(Count(entries, Keep) + Count(entries, RefuseUnfinalized), Count(entries, Delete),
          Count(entries, RefuseUnfinalized), |entries| - Count(entries, Keep),
          Bytes(entries, Delete), Bytes(entries, WouldDelete), Bytes(entries, RefuseUnfinalized))
  }

  /** Counts one more entry. No counter overflows or saturates while the scanned totals fit. */
  method Account(items: seq<Item>, entries: seq<Entry>, t: Tally, entry: Entry) returns (r: Option<Tally>)
    requires |entries| < |items| <= U64_MAX && BytesUpTo(items, |items|) <= U64_MAX
    requires entry.bytes == items[|entries|].inventory.bytes
    requires Shared(items, |entries|, entries) && t == TallyOf(entries)
    ensures Shared(items, |entries| + 1, entries + [entry])
    ensures r.Some? && r.value == TallyOf(entries + [entry])
  {
    PrefixBytes(items, |entries| + 1, |items|);
    SharedSnoc(items, |entries|, entries, entry);
    Snoc(entries, entry);
    var next := if entry.action.Keep? then t else t.(candidates := SaturatingAdd(t.candidates, 1));
    match entry.action {
      case Keep => return Some(next.(kept := SaturatingAdd(t.kept, 1)));
      case RefuseUnfinalized =>
        var sum := CheckedAdd(t.refusedBytes, entry.bytes);
        if sum.None? { return None; }
        return Some(next.(kept := SaturatingAdd(t.kept, 1), refused := SaturatingAdd(t.refused, 1),
          refusedBytes := sum.value));
      case WouldDelete =>
        var sum := CheckedAdd(t.would, entry.bytes);
        if sum.None? { return None; }
        return Some(next.(would := sum.value));
      case Delete =>
        var sum := CheckedAdd(t.reclaimed, entry.bytes);
        if sum.None? { return None; }
        return Some(next.(reclaimed := sum.value, deleted := SaturatingAdd(t.deleted, 1)));
    }
  }

  /**
   * The loop over a newest-first list whose scanned total fits. The number of items fits a
   * machine word, as the length of any list does.
   */
  method PruneLoop(items: seq<Item>, view: View, policy: Policy, now: int, dryRun: bool)
    returns (r: Result<(seq<Entry>, Tally), PruneError>)
    requires |items| <= U64_MAX && BytesUpTo(items, |items|) <= U64_MAX
    ensures r.Err? <==> Stopped(policy, dryRun, now, items, view)
    ensures r.Ok? ==> Outcomes(policy, dryRun, now, items, view, r.value.0)
    ensures r.Ok? ==> Shared(items, |items|, r.value.0) && r.value.1 == TallyOf(r.value.0)
  {
    var entries: seq<Entry> := [];
    var cumulative: U64 := 0;
    var t := Tally(0, 0, 0, 0, 0, 0, 0);
    for n := 0 to |items|
      invariant |entries| == n
      invariant forall i | 0 <= i < n :: Outcome(policy, dryRun, now, items, view, i) == Ok(entries[i])
      invariant Shared(items, n, entries) && t == TallyOf(entries) && cumulative == BytesUpTo(items, n)
    {
      PrefixBytes(items, n + 1, |items|);
      var item := items[n];
      var running := CheckedAdd(cumulative, item.inventory.bytes);
      if running.None? { return Err(Overflow); }
      cumulative := running.value;
      var decision := Decide(policy, dryRun, now, item, view(item), SelectedBy(policy, now, n, cumulative, item));
      assert decision == Outcome(policy, dryRun, now, items, view, n);
      if decision.Err? { return Err(decision.error); }
      OutcomeNames(policy, dryRun, now, items, view, n);
      var next := Account(items, entries, t, decision.value);
      if next.None? { return Err(Overflow); }
      t := next.value;
      entries := entries + [decision.value];
    }
    return Ok((entries, t));
  }

  /**
   * One prune of the items. No counter ever overflows or saturates: it fails in no other case
   * than `Fails`, and the report holds the unbounded totals.
   */
  method Prune(items: seq<Item>, view: View, policy: Policy, now: int, dryRun: bool)
    returns (r: Result<Report, PruneError>)
    requires |items| <= U64_MAX
    ensures r.Err? <==> Fails(policy, dryRun, now, items, view)
    ensures r.Ok? ==> Reports(policy, dryRun, now, items, view, r.value)
  {
    var initial := ScanTotals(items);
    if initial.None? { return Err(Overflow); }
    var (scanned, logs, unfinalized) := initial.value;
    var looped := PruneLoop(items, view, policy, now, dryRun);
    if looped.Err? { return Err(looped.error); }
    var (entries, t) := looped.value;
    var planned := if dryRun then t.would else t.reclaimed;
    return Ok(Report(dryRun, t.kept, t.deleted, t.refused, t.candidates, scanned, SaturatingSub(scanned, t.reclaimed),
                     SaturatingSub(scanned, planned), t.reclaimed, t.would, t.refusedBytes, unfinalized, logs,
                     entries));
  }
}
