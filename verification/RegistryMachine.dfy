/**
 Any number of registry clients running at once over one registry file and one
 process table.

 Each client launches and registers children, lists with pruning, or stops
 processes, one system call or one registry commit at a time. The registry lock
 is held across a whole listing pass and for the instant of every other commit.
 A launcher leaves its child unreaped until its registration returns.
 */
module RegistryMachine {
  import opened Wrappers
  import opened Sequences
  import opened IncarnationToken
  import opened ProcessTable
  import opened StopProtocol
  import opened AgentRegistry

  datatype Phase = Probe(next: nat, probing: bool) | Terminate(next: nat, stopper: Stopper) | Remove(next: nat)

  datatype Client =
    | Idle
    | Launching(child: nat)
    | Registering(child: nat, record: Record)
    | Listing(verdicts: seq<Verdict>, probing: bool)
    | Stopping(req: Request, matches: seq<Record>, live: set<nat>, phase: Phase, sent: seq<Delivery>)

  /** `tracked` remembers the incarnations registered and not explicitly unregistered since. */
  datatype Sys = Sys(table: Table, durable: seq<Record>, lock: Option<nat>, clients: map<nat, Client>,
    tracked: set<nat>)

  function ClientOf(s: Sys, c: nat): Client {
    if c in s.clients then s.clients[c] else Idle
  }

  function With(s: Sys, c: nat, client: Client): Sys {
    s.(clients := s.clients[c := client])
  }

  datatype Event =
    | KernelMoves(step: KernelStep)
    | MachineRestarts
    | Launch(child: nat)
    | ReadIdentity(record: Record)
    | CommitRegister(commit: Commit)
    | BeginList
    | ProbeList(obs: Obs)
    | CommitList(commit: Commit)
    | BeginStop(req: Request)
    | ProbeStop(obs: Obs)
    | Signal(obs: Obs, expired: bool, delivered: Option<Delivery>)
    | CommitRemove(commit: Commit)
    | Unregister(pid: nat, startTime: string, commit: Commit)
    | Abandon

  datatype ProbeResult = NeedsIdentity | Concluded(verdict: Option<Verdict>)

  function ProbeOnce(rec: Record, probing: bool, obs: Obs): ProbeResult
    requires if probing then obs.IdentityProbe? else obs.ExistsObs?
  {
    if probing then Concluded(ProcessState(rec.pid, rec.startTime, Some(true), obs.identity))
    else if Supported(rec.pid, rec.startTime) && obs.exists_ == Some(true) then NeedsIdentity
    else Concluded(ProcessState(rec.pid, rec.startTime, obs.exists_, Unreadable))
  }

  ghost predicate SeesProbe(k: Table, rec: Record, probing: bool, obs: Obs) {
    if probing then obs.IdentityProbe? && SeesIdentity(k, rec.pid, obs.identity)
    else obs.ExistsObs? && SeesExists(k, rec.pid, obs.exists_)
  }

  function Below(n: nat): (r: set<nat>)
    ensures forall i: nat :: i in r <==> i < n
  {
    if n == 0 then {} else Below(n - 1) + {n - 1}
  }

  function Choose(ps: seq<Record>, req: Request): seq<Record> {
    Filter(ps, (p: Record) => Matches(req, p))
  }

  /** Where a stop continues once match `next` is to be terminated; past the end it is over. */
  function StopFrom(req: Request, matches: seq<Record>, live: set<nat>, next: nat, sent: seq<Delivery>): Client {
    if next < |matches| then
      Stopping(req, matches, live, Terminate(next, Start(matches[next].pid, matches[next].startTime)), sent)
    else Idle
  }

  ghost predicate HeldByLauncher(s: Sys, i: nat) {
    exists c | c in s.clients :: (s.clients[c].Launching? || s.clients[c].Registering?) && s.clients[c].child == i
  }

  /**
   One event of client `c`. `waits` says whether launchers leave a child unreaped
   until its registration returns.
   */
  ghost predicate Next(waits: bool, s: Sys, c: nat, e: Event, s': Sys) {
    match e
    case KernelMoves(step) =>
      && Step(s.table, step, s'.table) && s' == s.(table := s'.table)
      && (waits && step.Reap? ==> !HeldByLauncher(s, step.i))
    case MachineRestarts =>
      s' == s.(table := Rebooted(s.table), lock := None, clients := map[])
    case Launch(child) =>
      ClientOf(s, c).Idle? && child < |s.table| && !s.table[child].life.Reaped? && s' == With(s, c, Launching(child))
    case ReadIdentity(record) =>
      && var client := ClientOf(s, c);
      && client.Launching? && client.child < |s.table| && record.pid == s.table[client.child].id.pid
      && (exists state :: SeesIdentity(s.table, record.pid, Observed(state, record.startTime)))
      && s' == With(s, c, Registering(client.child, record))
    case CommitRegister(commit) =>
      && var client := ClientOf(s, c);
      && client.Registering? && s.lock.None?
      && var outcome := RegisterState(s.durable, client.record);
      && s' == With(s, c, Idle).(
         durable := Updated(s.durable, outcome, commit),
         tracked := if outcome.Ok? && Applied(commit) then s.tracked + {client.child} else s.tracked)
    case BeginList =>
      ClientOf(s, c).Idle? && s.lock.None? && s' == With(s, c, Listing([], false)).(lock := Some(c))
    case ProbeList(obs) => ListProbe(s, c, obs, s')
    case CommitList(commit) =>
      && var client := ClientOf(s, c);
      && client.Listing? && |client.verdicts| == |s.durable|
      && var outcome := PruneState(s.durable, Certain(client.verdicts));
      && s' == With(s, c, Idle).(durable := Updated(s.durable, outcome, commit), lock := None)
    case BeginStop(req) =>
      && ClientOf(s, c).Idle? && s.lock.None?
      && var matches := Choose(s.durable, req);
      && s' == With(s, c, if matches == [] then Idle
                          else if Exclusive(req) then Stopping(req, matches, {}, Probe(0, false), [])
                          else StopFrom(req, matches, Below(|matches|), 0, []))
    case ProbeStop(obs) => StopProbe(s, c, obs, s')
    case Signal(obs, expired, delivered) => StopSignal(s, c, obs, expired, delivered, s')
    case CommitRemove(commit) =>
      && var client := ClientOf(s, c);
      && client.Stopping? && client.phase.Remove? && client.phase.next < |client.matches| && s.lock.None?
      && var p := client.matches[client.phase.next];
      && s' == With(s, c, StopFrom(client.req, client.matches, client.live, client.phase.next + 1, client.sent)).(
         durable := if Applied(commit) then RemoveState(s.durable, p.pid, p.startTime) else s.durable)
    case Unregister(pid, startTime, commit) =>
      && ClientOf(s, c).Idle? && s.lock.None?
      && s' == (if Applied(commit) then
                  s.(durable := RemoveState(s.durable, pid, startTime),
                     tracked := set i | i in s.tracked && !Recorded(s.table, i, pid, startTime))
                else s)
    case Abandon =>
      s' == With(s, c, Idle).(lock := if s.lock == Some(c) then None else s.lock)
  }

  function Certain(vs: seq<Verdict>): seq<Option<Verdict>> {
    seq(|vs|, i requires 0 <= i < |vs| => Some(vs[i]))
  }

  /** A listing pass probes the next record; an uncertain verdict gives up without a commit. */
  ghost predicate ListProbe(s: Sys, c: nat, obs: Obs, s': Sys) {
    && var client := ClientOf(s, c);
    && client.Listing? && |client.verdicts| < |s.durable|
    && var rec := s.durable[|client.verdicts|];
    && SeesProbe(s.table, rec, client.probing, obs)
    && s' == (match ProbeOnce(rec, client.probing, obs)
              case NeedsIdentity => With(s, c, client.(probing := true))
              case Concluded(None) => With(s, c, Idle).(lock := None)
              case Concluded(Some(v)) => With(s, c, Listing(client.verdicts + [v], false)))
  }

  /** The client after a concluded probe of an exclusive stop. */
  function AfterProbe(client: Client, v: Option<Verdict>): Client
    requires client.Stopping? && client.phase.Probe?
  {
    var next := client.phase.next;
    var live := if MayBeLive(v) then client.live + {next} else client.live;
    if |live| > 1 then Idle
    else if next + 1 < |client.matches| then client.(live := live, phase := Probe(next + 1, false))
    else StopFrom(client.req, client.matches, live, 0, client.sent)
  }

  /** An exclusive stop counts the matches that may be live; more than one makes it ambiguous. */
  ghost predicate StopProbe(s: Sys, c: nat, obs: Obs, s': Sys) {
    && var client := ClientOf(s, c);
    && client.Stopping? && client.phase.Probe? && client.phase.next < |client.matches|
    && var rec := client.matches[client.phase.next];
    && SeesProbe(s.table, rec, client.phase.probing, obs)
    && s' == (match ProbeOnce(rec, client.phase.probing, obs)
              case NeedsIdentity => With(s, c, client.(phase := Probe(client.phase.next, true)))
              case Concluded(v) => With(s, c, AfterProbe(client, v)))
  }

  function AfterSignal(client: Client, after: Stopper, delivered: Option<Delivery>): Client
    requires client.Stopping? && client.phase.Terminate?
  {
    var sent := if delivered.Some? then client.sent + [delivered.value] else client.sent;
    if after.pc.Done? then client.(phase := Remove(client.phase.next), sent := sent)
    else if after.pc.Failed? then StopFrom(client.req, client.matches, client.live, client.phase.next + 1, sent)
    else client.(phase := Terminate(client.phase.next, after), sent := sent)
  }

  /** The stopping program moves; once done its record is removed, and a failure moves on. */
  ghost predicate StopSignal(s: Sys, c: nat, obs: Obs, expired: bool, delivered: Option<Delivery>, s': Sys) {
    && var client := ClientOf(s, c);
    && client.Stopping? && client.phase.Terminate?
    && var before := client.phase.stopper;
    && Sees(s.table, before, obs)
    && (if DeliversNothing(before, obs) then delivered.None?
        else delivered.Some? && Delivers(s.table, before, obs, delivered.value))
    && s' == With(s, c, AfterSignal(client, Advance(before, obs, expired), delivered))
  }

  ghost predicate Init(s: Sys) {
    Wf(s.table) && s.durable == [] && s.lock.None? && s.clients == map[] && s.tracked == {}
  }

  ghost predicate IsRun(waits: bool, run: seq<Sys>, actors: seq<nat>, events: seq<Event>) {
    && |run| == |events| + 1 == |actors| + 1 && Init(run[0])
    && forall i | 0 <= i < |events| :: Next(waits, run[i], actors[i], events[i], run[i + 1])
  }

  ghost predicate Known(k: Table, rec: Record) {
    exists r: nat :: Recorded(k, r, rec.pid, rec.startTime)
  }

  /** The incarnation behind the record is known and no longer running. */
  ghost predicate Stopped(k: Table, rec: Record) {
    exists r: nat :: Recorded(k, r, rec.pid, rec.startTime) && !k[r].life.Running?
  }

  /** The delivery went to the incarnation of one of the possibly live matches. */
  ghost predicate AtLiveMatch(k: Table, matches: seq<Record>, live: set<nat>, d: Delivery) {
    exists j | j in live :: j < |matches| && Recorded(k, d.to, matches[j].pid, matches[j].startTime)
  }

  ghost predicate StopperFor(k: Table, st: Stopper, rec: Record) {
    && st.pid == rec.pid && st.token == rec.startTime
    && exists r: nat :: Recorded(k, r, rec.pid, rec.startTime) && Inv(k, st, r)
  }

  ghost predicate ClientInv(k: Table, durable: seq<Record>, lock: Option<nat>, c: nat, client: Client) {
    match client
    case Idle => true
    case Launching(i) => i < |k| && !k[i].life.Reaped?
    case Registering(i, record) =>
      i < |k| && !k[i].life.Reaped? && Recorded(k, i, record.pid, record.startTime)
    case Listing(verdicts, probing) =>
      && lock == Some(c) && |verdicts| <= |durable|
      && forall j | 0 <= j < |verdicts| && !verdicts[j].Live? :: Stopped(k, durable[j])
    case Stopping(req, matches, live, phase, sent) => StopInv(k, req, matches, live, phase, sent)
  }

  ghost predicate StopInv(k: Table, req: Request, matches: seq<Record>, live: set<nat>, phase: Phase,
      sent: seq<Delivery>) {
    && (forall m | m in matches :: Matches(req, m) && Known(k, m))
    && (forall d | d in sent :: d.bound && d.running ==> AtLiveMatch(k, matches, live, d))
    && (Exclusive(req) ==> |live| <= 1)
    && (match phase
        case Probe(next, _) =>
          sent == [] && Exclusive(req) && next <= |matches| && forall j | 0 <= j < next && j !in live ::
            Stopped(k, matches[j])
        case Terminate(next, stopper) =>
          && next < |matches| && (forall j | 0 <= j < |matches| && j !in live :: Stopped(k, matches[j]))
          && StopperFor(k, stopper, matches[next])
        case Remove(next) =>
          && next < |matches| && (forall j | 0 <= j < |matches| && j !in live :: Stopped(k, matches[j]))
          && Stopped(k, matches[next]))
  }

  /** Every tracked incarnation that is running has its record in the file. */
  ghost predicate RetainedIn(k: Table, durable: seq<Record>, tracked: set<nat>) {
    forall i | i in tracked && i < |k| && k[i].life.Running? :: Listed(k, durable, i)
  }

  ghost predicate Listed(k: Table, durable: seq<Record>, i: nat) {
    exists rec | rec in durable :: Recorded(k, i, rec.pid, rec.startTime)
  }

  ghost predicate Retained(s: Sys) {
    RetainedIn(s.table, s.durable, s.tracked)
  }

  ghost predicate SysInv(s: Sys) {
    && Wf(s.table) && (forall rec | rec in s.durable :: Known(s.table, rec)) && Retained(s)
    && (forall i | i in s.tracked :: i < |s.table|)
    && forall c | c in s.clients :: ClientInv(s.table, s.durable, s.lock, c, s.clients[c])
  }

  // ---- facts about one record ----

  lemma {:induction false} SameTokenSameIncarnation(k: Table, i: nat, j: nat, pid: nat, token: string)
    requires Wf(k) && Recorded(k, i, pid, token) && Recorded(k, j, pid, token)
    ensures i == j
  {
    PrintInjective(k[i].id, k[j].id);
  }

  /** A verdict other than Live is only given for a process that has stopped. */
  lemma {:induction false} ProbeSound(k: Table, rec: Record, probing: bool, obs: Obs)
    requires Wf(k) && Known(k, rec) && SeesProbe(k, rec, probing, obs)
    ensures var res := ProbeOnce(rec, probing, obs);
      res.Concluded? && !MayBeLive(res.verdict) ==> Stopped(k, rec)
  {
    var r: nat :| Recorded(k, r, rec.pid, rec.startTime);
    if probing {
      VerdictSound(k, r, rec.pid, rec.startTime, obs.identity);
      if k[r].life.Running? { assert Holds(k, r, rec.pid); }
    } else if obs.exists_ == Some(false) {
      assert !Holds(k, r, rec.pid);
    }
  }

  /** Removing a record only unlists the incarnation it names. */
  lemma {:induction false} RemoveKeepsListed(k: Table, durable: seq<Record>, pid: nat, startTime: string, i: nat)
    requires Listed(k, durable, i) && !Recorded(k, i, pid, startTime)
    ensures Listed(k, RemoveState(durable, pid, startTime), i)
  {
    var rec :| rec in durable && Recorded(k, i, rec.pid, rec.startTime);
    assert rec in RemoveState(durable, pid, startTime);
  }

  /** Removing the record of a stopped process keeps every running one listed. */
  lemma {:induction false} RemoveRetains(k: Table, durable: seq<Record>, tracked: set<nat>, p: Record)
    requires Wf(k) && RetainedIn(k, durable, tracked) && Stopped(k, p)
    ensures RetainedIn(k, RemoveState(durable, p.pid, p.startTime), tracked)
  {
    var q: nat :| Recorded(k, q, p.pid, p.startTime) && !k[q].life.Running?;
    forall i | i in tracked && i < |k| && k[i].life.Running?
      ensures Listed(k, RemoveState(durable, p.pid, p.startTime), i)
    {
      if Recorded(k, i, p.pid, p.startTime) { SameTokenSameIncarnation(k, i, q, p.pid, p.startTime); }
      RemoveKeepsListed(k, durable, p.pid, p.startTime, i);
    }
  }

  /** Listing drops only records of stopped processes, so every running one stays listed. */
  lemma {:induction false} PruneRetains(k: Table, durable: seq<Record>, tracked: set<nat>, verdicts: seq<Verdict>)
    requires Wf(k) && RetainedIn(k, durable, tracked) && |verdicts| == |durable|
    requires forall j | 0 <= j < |verdicts| && !verdicts[j].Live? :: Stopped(k, durable[j])
    ensures PruneState(durable, Certain(verdicts)).Ok?
    ensures RetainedIn(k, PruneState(durable, Certain(verdicts)).value, tracked)
    ensures forall x | x in PruneState(durable, Certain(verdicts)).value :: x in durable
  {
    PruneKeepsLive(durable, Certain(verdicts));
    var kept := PruneState(durable, Certain(verdicts)).value;
    forall i | i in tracked && i < |k| && k[i].life.Running? ensures Listed(k, kept, i) {
      var rec :| rec in durable && Recorded(k, i, rec.pid, rec.startTime);
      var j :| 0 <= j < |durable| && durable[j] == rec;
      RunningIsNotStopped(k, i, rec);
      assert LiveAt(durable, Certain(verdicts), rec, j);
    }
  }

  lemma {:induction false} RunningIsNotStopped(k: Table, i: nat, rec: Record)
    requires Wf(k) && Recorded(k, i, rec.pid, rec.startTime) && k[i].life.Running?
    ensures !Stopped(k, rec)
  {
    forall r: nat | Recorded(k, r, rec.pid, rec.startTime) ensures k[r].life.Running? {
      SameTokenSameIncarnation(k, i, r, rec.pid, rec.startTime);
    }
  }

  /** Registering a child that still holds its PID displaces no running process. */
  lemma {:induction false} RegisterRetains(k: Table, durable: seq<Record>, tracked: set<nat>, child: nat,
      record: Record)
    requires Wf(k) && RetainedIn(k, durable, tracked) && RegisterState(durable, record).Ok?
    requires child < |k| && !k[child].life.Reaped? && Recorded(k, child, record.pid, record.startTime)
    ensures RetainedIn(k, RegisterState(durable, record).value, tracked + {child})
  {
    var after := RegisterState(durable, record).value;
    RegisterMembers(durable, record);
    forall i | i in tracked + {child} && i < |k| && k[i].life.Running? ensures Listed(k, after, i) {
      if i == child {
        assert record in after;
      } else {
        var rec :| rec in durable && Recorded(k, i, rec.pid, rec.startTime);
        assert rec.pid != record.pid;
        assert rec in after;
      }
    }
  }

  // ---- the invariant survives the kernel ----

  lemma {:induction false} StoppedStable(k: Table, k': Table, rec: Record)
    requires Evolves(k, k')
    ensures Stopped(k, rec) ==> Stopped(k', rec)
    ensures Known(k, rec) ==> Known(k', rec)
  {
    if Stopped(k, rec) {
      var r: nat :| Recorded(k, r, rec.pid, rec.startTime) && !k[r].life.Running?;
      assert Recorded(k', r, rec.pid, rec.startTime) && !k'[r].life.Running?;
    }
    if Known(k, rec) {
      var r: nat :| Recorded(k, r, rec.pid, rec.startTime);
      assert Recorded(k', r, rec.pid, rec.startTime);
    }
  }

  lemma {:induction false} StopInvStable(k: Table, k': Table, req: Request, matches: seq<Record>, live: set<nat>,
      phase: Phase, sent: seq<Delivery>)
    requires Wf(k') && Evolves(k, k') && StopInv(k, req, matches, live, phase, sent)
    ensures StopInv(k', req, matches, live, phase, sent)
  {
    forall m ensures (Stopped(k, m) ==> Stopped(k', m)) && (Known(k, m) ==> Known(k', m)) { StoppedStable(k, k', m); }
    forall d | d in sent && d.bound && d.running ensures AtLiveMatch(k', matches, live, d) {
      var j :| j in live && j < |matches| && Recorded(k, d.to, matches[j].pid, matches[j].startTime);
      assert Recorded(k', d.to, matches[j].pid, matches[j].startTime);
    }
    if phase.Terminate? {
      var rec := matches[phase.next];
      var r: nat :| Recorded(k, r, rec.pid, rec.startTime) && Inv(k, phase.stopper, r);
      KernelKeepsInv(k, phase.stopper, r, k');
      assert Recorded(k', r, rec.pid, rec.startTime);
    }
  }

  lemma {:induction false} ClientInvStable(k: Table, k': Table, durable: seq<Record>, lock: Option<nat>, c: nat,
      client: Client)
    requires Wf(k') && Evolves(k, k') && ClientInv(k, durable, lock, c, client)
    requires client.Launching? || client.Registering? ==> client.child < |k'| && !k'[client.child].life.Reaped?
    ensures ClientInv(k', durable, lock, c, client)
  {
    match client
    case Listing(verdicts, _) =>
      forall m ensures Stopped(k, m) ==> Stopped(k', m) { StoppedStable(k, k', m); }
    case Stopping(req, matches, live, phase, sent) => StopInvStable(k, k', req, matches, live, phase, sent);
    case _ =>
  }

  lemma {:induction false} RetainedStable(s: Sys, k': Table)
    requires Retained(s) && Evolves(s.table, k') && forall i | i in s.tracked :: i < |s.table|
    ensures Retained(s.(table := k'))
  {
    forall i | i in s.tracked && k'[i].life.Running?
      ensures Listed(k', s.durable, i)
    {
      var rec :| rec in s.durable && Recorded(s.table, i, rec.pid, rec.startTime);
      assert Recorded(k', i, rec.pid, rec.startTime);
    }
  }

  lemma {:induction false} KernelKeeps(s: Sys, c: nat, step: KernelStep, s': Sys)
    requires SysInv(s) && Next(true, s, c, KernelMoves(step), s')
    ensures SysInv(s')
  {
    StepEvolves(s.table, step, s'.table);
    RetainedStable(s, s'.table);
    forall rec | rec in s.durable ensures Known(s'.table, rec) { StoppedStable(s.table, s'.table, rec); }
    forall d | d in s.clients ensures ClientInv(s'.table, s.durable, s.lock, d, s.clients[d]) {
      if s.clients[d].Launching? || s.clients[d].Registering? {
        assert step.Reap? ==> step.i != s.clients[d].child;
      }
      ClientInvStable(s.table, s'.table, s.durable, s.lock, d, s.clients[d]);
    }
  }

  lemma {:induction false} RestartKeeps(s: Sys, c: nat, s': Sys)
    requires SysInv(s) && Next(true, s, c, MachineRestarts, s')
    ensures SysInv(s')
  {
    RebootEvolves(s.table);
    forall rec | rec in s.durable ensures Known(s'.table, rec) { StoppedStable(s.table, s'.table, rec); }
  }

  // ---- the invariant survives each client event ----

  /** An event that leaves the file alone only has to re-establish its own client. */
  lemma {:induction false} OwnClientSuffices(s: Sys, c: nat, client: Client, lock: Option<nat>)
    requires SysInv(s) && ClientInv(s.table, s.durable, lock, c, client)
    requires forall d | d in s.clients && d != c && s.clients[d].Listing? :: lock == s.lock
    ensures SysInv(With(s, c, client).(lock := lock))
  {
  }

  /** While nobody else is listing, the file may change as long as it lists what it must. */
  lemma {:induction false} FileChangeSuffices(s: Sys, c: nat, client: Client, s': Sys)
    requires SysInv(s) && (s.lock.None? || s.lock == Some(c)) && s'.table == s.table
    requires s'.clients == s.clients[c := client]
    requires ClientInv(s'.table, s'.durable, s'.lock, c, client) && Retained(s')
    requires (forall rec | rec in s'.durable :: Known(s.table, rec)) && forall i | i in s'.tracked :: i < |s.table|
    ensures SysInv(s')
  {
    forall d | d in s'.clients ensures ClientInv(s'.table, s'.durable, s'.lock, d, s'.clients[d]) {
      if d != c { assert ClientInv(s.table, s.durable, s.lock, d, s.clients[d]); }
    }
  }

  lemma {:induction false} ReadIdentityKeeps(s: Sys, c: nat, record: Record, s': Sys)
    requires SysInv(s) && Next(true, s, c, ReadIdentity(record), s')
    ensures SysInv(s')
  {
    var child := ClientOf(s, c).child;
    var state :| SeesIdentity(s.table, record.pid, Observed(state, record.startTime));
    var i: nat :| Holds(s.table, i, record.pid) && record.startTime == Print(s.table[i].id);
    assert Holds(s.table, child, record.pid) && i == child;
    OwnClientSuffices(s, c, Registering(child, record), s.lock);
  }

  lemma {:induction false} RegisterKeeps(s: Sys, c: nat, commit: Commit, s': Sys)
    requires SysInv(s) && Next(true, s, c, CommitRegister(commit), s')
    ensures SysInv(s')
  {
    var client := ClientOf(s, c);
    if RegisterState(s.durable, client.record).Ok? && Applied(commit) {
      RegisterRetains(s.table, s.durable, s.tracked, client.child, client.record);
      RegisterMembers(s.durable, client.record);
      assert Known(s.table, client.record);
    }
    FileChangeSuffices(s, c, Idle, s');
  }

  lemma {:induction false} RegisterMembers(ps: seq<Record>, record: Record)
    requires RegisterState(ps, record).Ok?
    ensures forall x :: x in RegisterState(ps, record).value <==> x == record || (x in ps && x.pid != record.pid)
  {
    var all := Filter(ps, (x: Record) => x.pid != record.pid) + [record];
    Ordering.SortMembers(all, RecordLe);
  }

  lemma {:induction false} ListedVerdict(s: Sys, c: nat, v: Verdict)
    requires SysInv(s) && ClientOf(s, c).Listing? && |ClientOf(s, c).verdicts| < |s.durable|
    requires !v.Live? ==> Stopped(s.table, s.durable[|ClientOf(s, c).verdicts|])
    ensures ClientInv(s.table, s.durable, s.lock, c, Listing(ClientOf(s, c).verdicts + [v], false))
  {
  }

  lemma {:induction false} ListProbeKeeps(s: Sys, c: nat, obs: Obs, s': Sys)
    requires SysInv(s) && ListProbe(s, c, obs, s')
    ensures SysInv(s')
  {
    var client := ClientOf(s, c);
    var rec := s.durable[|client.verdicts|];
    ProbeSound(s.table, rec, client.probing, obs);
    match ProbeOnce(rec, client.probing, obs)
    case NeedsIdentity => OwnClientSuffices(s, c, client.(probing := true), s.lock);
    case Concluded(None) => OwnClientSuffices(s, c, Idle, None);
    case Concluded(Some(v)) =>
      ListedVerdict(s, c, v);
      OwnClientSuffices(s, c, Listing(client.verdicts + [v], false), s.lock);
  }

  lemma {:induction false} ListCommitKeeps(s: Sys, c: nat, commit: Commit, s': Sys)
    requires SysInv(s) && Next(true, s, c, CommitList(commit), s')
    ensures SysInv(s')
  {
    PruneRetains(s.table, s.durable, s.tracked, ClientOf(s, c).verdicts);
    FileChangeSuffices(s, c, Idle, s');
  }

  /** Termination of the next match starts from a state that fits the invariant. */
  lemma {:induction false} StopFromInv(s: Sys, c: nat, req: Request, matches: seq<Record>, live: set<nat>, next: nat,
      sent: seq<Delivery>)
    requires Wf(s.table) && (forall m | m in matches :: Matches(req, m) && Known(s.table, m))
    requires forall d | d in sent :: d.bound && d.running ==> AtLiveMatch(s.table, matches, live, d)
    requires Exclusive(req) ==> |live| <= 1
    requires forall j | 0 <= j < |matches| && j !in live :: Stopped(s.table, matches[j])
    ensures ClientInv(s.table, s.durable, s.lock, c, StopFrom(req, matches, live, next, sent))
  {
    if next < |matches| {
      var rec := matches[next];
      assert rec in matches && Known(s.table, rec);
      var r: nat :| Recorded(s.table, r, rec.pid, rec.startTime);
      assert Inv(s.table, Start(rec.pid, rec.startTime), r);
    }
  }

  lemma {:induction false} BeginStopKeeps(s: Sys, c: nat, req: Request, s': Sys)
    requires SysInv(s) && Next(true, s, c, BeginStop(req), s')
    ensures SysInv(s')
  {
    var matches := Choose(s.durable, req);
    var all := Below(|matches|);
    if matches == [] {
      OwnClientSuffices(s, c, Idle, s.lock);
    } else if Exclusive(req) {
      OwnClientSuffices(s, c, Stopping(req, matches, {}, Probe(0, false), []), s.lock);
    } else {
      StopFromInv(s, c, req, matches, all, 0, []);
      OwnClientSuffices(s, c, StopFrom(req, matches, all, 0, []), s.lock);
    }
  }

  lemma {:induction false} AfterProbeInv(s: Sys, c: nat, client: Client, v: Option<Verdict>)
    requires Wf(s.table) && client.Stopping? && client.phase.Probe? && client.phase.next < |client.matches|
    requires ClientInv(s.table, s.durable, s.lock, c, client)
    requires !MayBeLive(v) ==> Stopped(s.table, client.matches[client.phase.next])
    ensures ClientInv(s.table, s.durable, s.lock, c, AfterProbe(client, v))
  {
    var next := client.phase.next;
    var live := if MayBeLive(v) then client.live + {next} else client.live;
    if |live| <= 1 && next + 1 >= |client.matches| {
      StopFromInv(s, c, client.req, client.matches, live, 0, []);
    }
  }

  lemma {:induction false} StopProbeKeeps(s: Sys, c: nat, obs: Obs, s': Sys)
    requires SysInv(s) && StopProbe(s, c, obs, s')
    ensures SysInv(s')
  {
    var client := ClientOf(s, c);
    var rec := client.matches[client.phase.next];
    assert rec in client.matches;
    ProbeSound(s.table, rec, client.phase.probing, obs);
    match ProbeOnce(rec, client.phase.probing, obs)
    case NeedsIdentity => OwnClientSuffices(s, c, client.(phase := Probe(client.phase.next, true)), s.lock);
    case Concluded(v) =>
      AfterProbeInv(s, c, client, v);
      OwnClientSuffices(s, c, AfterProbe(client, v), s.lock);
  }

  /** A running process reached through a pidfd belongs to a match that may be live. */
  lemma {:induction false} DeliveryAtLiveMatch(k: Table, client: Client, obs: Obs, d: Delivery)
    requires Wf(k) && client.Stopping? && client.phase.Terminate?
    requires StopInv(k, client.req, client.matches, client.live, client.phase, client.sent)
    requires Delivers(k, client.phase.stopper, obs, d) && d.bound && d.running
    ensures AtLiveMatch(k, client.matches, client.live, d)
  {
    var rec := client.matches[client.phase.next];
    var r: nat :| Recorded(k, r, rec.pid, rec.startTime) && Inv(k, client.phase.stopper, r);
    DeliverySafe(k, client.phase.stopper, r, obs, d);
    if client.phase.next !in client.live {
      var q: nat :| Recorded(k, q, rec.pid, rec.startTime) && !k[q].life.Running?;
      SameTokenSameIncarnation(k, q, r, rec.pid, rec.startTime);
      assert false;
    }
  }

  /** The stopping program keeps its invariant, and is only done once the recorded process has stopped. */
  lemma {:induction false} AdvancedStopper(k: Table, before: Stopper, rec: Record, obs: Obs, expired: bool)
    requires StopperFor(k, before, rec) && Sees(k, before, obs)
    ensures StopperFor(k, Advance(before, obs, expired), rec)
    ensures Advance(before, obs, expired).pc.Done? ==> Stopped(k, rec)
  {
    var r: nat :| Recorded(k, r, rec.pid, rec.startTime) && Inv(k, before, r);
    AdvanceKeepsInv(k, before, r, obs, expired);
  }

  lemma {:induction false} AfterSignalInv(s: Sys, c: nat, client: Client, after: Stopper, delivered: Option<Delivery>)
    requires Wf(s.table) && client.Stopping? && client.phase.Terminate?
    requires ClientInv(s.table, s.durable, s.lock, c, client)
    requires StopperFor(s.table, after, client.matches[client.phase.next])
    requires after.pc.Done? ==> Stopped(s.table, client.matches[client.phase.next])
    requires delivered.Some? && delivered.value.bound && delivered.value.running ==>
               AtLiveMatch(s.table, client.matches, client.live, delivered.value)
    ensures ClientInv(s.table, s.durable, s.lock, c, AfterSignal(client, after, delivered))
  {
    var sent := if delivered.Some? then client.sent + [delivered.value] else client.sent;
    if after.pc.Failed? {
      StopFromInv(s, c, client.req, client.matches, client.live, client.phase.next + 1, sent);
    }
  }

  lemma {:induction false} StopSignalKeeps(s: Sys, c: nat, obs: Obs, expired: bool, delivered: Option<Delivery>,
      s': Sys)
    requires SysInv(s) && StopSignal(s, c, obs, expired, delivered, s')
    ensures SysInv(s')
  {
    var client := ClientOf(s, c);
    var after := Advance(client.phase.stopper, obs, expired);
    AdvancedStopper(s.table, client.phase.stopper, client.matches[client.phase.next], obs, expired);
    if delivered.Some? && delivered.value.bound && delivered.value.running {
      DeliveryAtLiveMatch(s.table, client, obs, delivered.value);
    }
    AfterSignalInv(s, c, client, after, delivered);
    OwnClientSuffices(s, c, AfterSignal(client, after, delivered), s.lock);
  }

  lemma {:induction false} RemoveCommitKeeps(s: Sys, c: nat, commit: Commit, s': Sys)
    requires SysInv(s) && Next(true, s, c, CommitRemove(commit), s')
    ensures SysInv(s')
  {
    var client := ClientOf(s, c);
    var next := client.phase.next + 1;
    StopFromInv(s', c, client.req, client.matches, client.live, next, client.sent);
    RemoveRetains(s.table, s.durable, s.tracked, client.matches[client.phase.next]);
    FileChangeSuffices(s, c, StopFrom(client.req, client.matches, client.live, next, client.sent), s');
  }

  lemma {:induction false} UnregisterKeeps(s: Sys, c: nat, pid: nat, startTime: string, commit: Commit, s': Sys)
    requires SysInv(s) && Next(true, s, c, Unregister(pid, startTime, commit), s')
    ensures SysInv(s')
  {
    if Applied(commit) {
      forall i | i in s'.tracked && i < |s.table| && s.table[i].life.Running? ensures Listed(s.table, s'.durable, i) {
        RemoveKeepsListed(s.table, s.durable, pid, startTime, i);
      }
      forall d | d in s'.clients ensures ClientInv(s'.table, s'.durable, s'.lock, d, s'.clients[d]) {
        assert ClientInv(s.table, s.durable, s.lock, d, s.clients[d]);
      }
    }
  }

  lemma {:induction false} NextKeeps(s: Sys, c: nat, e: Event, s': Sys)
    requires SysInv(s) && Next(true, s, c, e, s')
    ensures SysInv(s')
  {
    match e
    case KernelMoves(step) => KernelKeeps(s, c, step, s');
    case MachineRestarts => RestartKeeps(s, c, s');
    case Launch(child) => OwnClientSuffices(s, c, Launching(child), s.lock);
    case ReadIdentity(record) => ReadIdentityKeeps(s, c, record, s');
    case CommitRegister(commit) => RegisterKeeps(s, c, commit, s');
    case BeginList => OwnClientSuffices(s, c, Listing([], false), Some(c));
    case ProbeList(obs) => ListProbeKeeps(s, c, obs, s');
    case CommitList(commit) => ListCommitKeeps(s, c, commit, s');
    case BeginStop(req) => BeginStopKeeps(s, c, req, s');
    case ProbeStop(obs) => StopProbeKeeps(s, c, obs, s');
    case Signal(obs, expired, delivered) => StopSignalKeeps(s, c, obs, expired, delivered, s');
    case CommitRemove(commit) => RemoveCommitKeeps(s, c, commit, s');
    case Unregister(pid, startTime, commit) => UnregisterKeeps(s, c, pid, startTime, commit, s');
    case Abandon => OwnClientSuffices(s, c, Idle, if s.lock == Some(c) then None else s.lock);
  }

  // ---- whole runs ----

  lemma {:induction false} RunKeeps(run: seq<Sys>, actors: seq<nat>, events: seq<Event>, n: nat)
    requires IsRun(true, run, actors, events) && n < |run|
    ensures SysInv(run[n])
  {
    if n > 0 {
      RunKeeps(run, actors, events, n - 1);
      NextKeeps(run[n - 1], actors[n - 1], events[n - 1], run[n]);
    }
  }

  /**
   Over every run of every mix of clients, exits, PID reuse and restarts, an
   incarnation that was registered and never explicitly unregistered has its
   record in the registry file for as long as it runs.
   */
  lemma {:induction false} RunningStaysRegistered(run: seq<Sys>, actors: seq<nat>, events: seq<Event>, n: nat, i: nat)
    requires IsRun(true, run, actors, events) && n < |run|
    requires i in run[n].tracked && i < |run[n].table| && run[n].table[i].life.Running?
    ensures exists rec | rec in run[n].durable :: Recorded(run[n].table, i, rec.pid, rec.startTime)
  {
    RunKeeps(run, actors, events, n);
  }

  ghost predicate EndsIn(waits: bool, run: seq<Sys>, actors: seq<nat>, events: seq<Event>, s: Sys) {
    IsRun(waits, run, actors, events) && run[|run| - 1] == s
  }

  /** Some run of the machine ends in `s`. */
  ghost predicate Reachable(waits: bool, s: Sys) {
    exists run, actors, events :: EndsIn(waits, run, actors, events, s)
  }

  lemma {:induction false} ReachableInit(waits: bool, s: Sys)
    requires Init(s)
    ensures Reachable(waits, s)
  {
    assert EndsIn(waits, [s], [], [], s);
  }

  lemma {:induction false} ReachableNext(waits: bool, s: Sys, c: nat, e: Event, s': Sys)
    requires Reachable(waits, s) && Next(waits, s, c, e, s')
    ensures Reachable(waits, s')
  {
    var run, actors, events :| EndsIn(waits, run, actors, events, s);
    var run', actors', events' := run + [s'], actors + [c], events + [e];
    forall i | 0 <= i < |events'| ensures Next(waits, run'[i], actors'[i], events'[i], run'[i + 1]) {
      if i < |events| { assert Next(waits, run[i], actors[i], events[i], run[i + 1]); }
    }
    assert EndsIn(waits, run', actors', events', s');
  }

  /** Client `c` launches the running process `i` and reads its identity. */
  lemma {:induction false} Identified(waits: bool, s: Sys, c: nat, i: nat, record: Record)
    requires Reachable(waits, s) && ClientOf(s, c).Idle? && Holds(s.table, i, record.pid) && s.table[i].life.Running?
    requires record.startTime == Print(s.table[i].id)
    ensures Reachable(waits, With(s, c, Registering(i, record)))
  {
    var launched := With(s, c, Launching(i));
    ReachableNext(waits, s, c, Launch(i), launched);
    assert SeesIdentity(s.table, record.pid, Observed('S', record.startTime));
    assert With(launched, c, Registering(i, record)) == With(s, c, Registering(i, record));
    ReachableNext(waits, launched, c, ReadIdentity(record), With(s, c, Registering(i, record)));
  }

  function Registered(s: Sys, c: nat, i: nat, record: Record): Sys
    requires RegisterState(s.durable, record).Ok?
  {
    With(s, c, Idle).(durable := RegisterState(s.durable, record).value, tracked := s.tracked + {i})
  }

  lemma {:induction false} RegistrationCommits(waits: bool, s: Sys, c: nat, i: nat, record: Record)
    requires Reachable(waits, s) && s.lock.None? && ClientOf(s, c) == Registering(i, record)
    requires RegisterState(s.durable, record).Ok?
    ensures Reachable(waits, Registered(s, c, i, record))
  {
    ReachableNext(waits, s, c, CommitRegister(Committed), Registered(s, c, i, record));
  }

  /** Any live process can be launched, identified and registered: a run ends with it tracked and running. */
  lemma {:induction false} RegistrationRun(a: Identity, record: Record) returns (s: Sys)
    requires Valid(a) && record.pid == a.pid && record.startTime == Print(a)
    ensures Reachable(true, s) && s.table == [Incarnation(a, Running)] && 0 in s.tracked
  {
    var s0 := Sys([Incarnation(a, Running)], [], None, map[], {});
    ReachableInit(true, s0);
    assert Holds(s0.table, 0, a.pid);
    Identified(true, s0, 0, 0, record);
    assert RegisterState([], record).Ok?;
    RegistrationCommits(true, With(s0, 0, Registering(0, record)), 0, 0, record);
    s := Registered(With(s0, 0, Registering(0, record)), 0, 0, record);
  }

  /**
   A stop by selector or assignment, at every point of every run: the running
   processes its bound signals have reached are all one incarnation, and the
   record of that incarnation matches the request.
   */
  lemma {:induction false} ExclusiveStopHitsOne(run: seq<Sys>, actors: seq<nat>, events: seq<Event>, n: nat, c: nat,
      d1: Delivery, d2: Delivery)
    requires IsRun(true, run, actors, events) && n < |run|
    requires ClientOf(run[n], c).Stopping? && Exclusive(ClientOf(run[n], c).req)
    requires d1 in ClientOf(run[n], c).sent && d1.bound && d1.running
    requires d2 in ClientOf(run[n], c).sent && d2.bound && d2.running
    ensures d1.to == d2.to
    ensures exists m | m in ClientOf(run[n], c).matches ::
              Matches(ClientOf(run[n], c).req, m) && Recorded(run[n].table, d1.to, m.pid, m.startTime)
  {
    RunKeeps(run, actors, events, n);
    var k, client := run[n].table, ClientOf(run[n], c);
    var j1 :| j1 in client.live && j1 < |client.matches| &&
      Recorded(k, d1.to, client.matches[j1].pid, client.matches[j1].startTime);
    var j2 :| j2 in client.live && j2 < |client.matches| &&
      Recorded(k, d2.to, client.matches[j2].pid, client.matches[j2].startTime);
    if j1 != j2 { assert {j1, j2} <= client.live && |{j1, j2}| == 2; SubsetSize({j1, j2}, client.live); }
    var m := client.matches[j1];
    SameTokenSameIncarnation(k, d1.to, d2.to, m.pid, m.startTime);
    assert m in client.matches;
  }

  /**
   While an exclusive stop is still probing its matches, in every run, it has sent
   nothing and its steps leave the file alone. It gives up exactly when the match
   just probed may be live and another one already was.
   */
  lemma {:induction false} AmbiguousStopIsInert(run: seq<Sys>, actors: seq<nat>, events: seq<Event>, n: nat)
    requires IsRun(true, run, actors, events) && n < |events| && events[n].ProbeStop?
    ensures var client := ClientOf(run[n], actors[n]);
      && client.Stopping? && client.phase.Probe? && client.phase.next < |client.matches|
      && SeesProbe(run[n].table, client.matches[client.phase.next], client.phase.probing, events[n].obs)
      && client.sent == [] && run[n + 1].durable == run[n].durable
      && var res := ProbeOnce(client.matches[client.phase.next], client.phase.probing, events[n].obs);
      && (ClientOf(run[n + 1], actors[n]).Idle? <==>
            res.Concluded? && MayBeLive(res.verdict) && exists j :: j in client.live && j != client.phase.next)
  {
    RunKeeps(run, actors, events, n);
    assert Next(true, run[n], actors[n], events[n], run[n + 1]);
    var client := ClientOf(run[n], actors[n]);
    var next := client.phase.next;
    if exists j :: j in client.live && j != next {
      var j :| j in client.live && j != next;
      SubsetSize({j, next}, client.live + {next});
    } else {
      SubsetSize(client.live + {next}, {next});
    }
  }

  // ---- launchers that do not wait ----

  lemma {:induction false} OtherListedIff(k: Table, before: seq<Record>, after: seq<Record>, named: nat, record: Record,
      i: nat)
    requires Wf(k) && Recorded(k, named, record.pid, record.startTime) && i != named && i < |k|
    requires k[i].id.pid == record.pid || Listed(k, before, i)
    requires forall x :: x in after <==> x == record || (x in before && x.pid != record.pid)
    ensures Listed(k, after, i) <==> k[i].id.pid != record.pid
  {
    if Listed(k, after, i) {
      var rec :| rec in after && Recorded(k, i, rec.pid, rec.startTime);
      if rec == record { SameTokenSameIncarnation(k, i, named, rec.pid, rec.startTime); }
    }
    if k[i].id.pid != record.pid {
      var old_ :| old_ in before && Recorded(k, i, old_.pid, old_.startTime);
      assert old_ in after;
    }
  }

  /**
   What launchers know whether they wait or not: their record has the PID of the child, and
   names some incarnation of it, which need not be the child.
   */
  ghost predicate LauncherInv(k: Table, client: Client) {
    && (client.Launching? || client.Registering? ==> client.child < |k|)
    && (client.Registering? ==> k[client.child].id.pid == client.record.pid && Known(k, client.record))
  }

  ghost predicate LaunchersInv(s: Sys) {
    Wf(s.table) && forall c | c in s.clients :: LauncherInv(s.table, s.clients[c])
  }

  lemma {:induction false} LauncherInvStable(k: Table, k': Table, client: Client)
    requires Evolves(k, k') && LauncherInv(k, client)
    ensures LauncherInv(k', client)
  {
    if client.Registering? { StoppedStable(k, k', client.record); }
  }

  lemma {:induction false} KernelKeepsLaunchers(s: Sys, s': Sys)
    requires LaunchersInv(s) && Wf(s'.table) && Evolves(s.table, s'.table) && s'.clients == s.clients
    ensures LaunchersInv(s')
  {
    forall d | d in s.clients ensures LauncherInv(s'.table, s.clients[d]) {
      LauncherInvStable(s.table, s'.table, s.clients[d]);
    }
  }

  /** An event of a client leaves the table and every other client alone, and only two kinds start a launcher. */
  ghost predicate OwnStep(s: Sys, c: nat, e: Event, s': Sys) {
    && s'.table == s.table && (forall d | d in s'.clients && d != c :: d in s.clients && s'.clients[d] == s.clients[d])
    && (c in s'.clients && (s'.clients[c].Launching? || s'.clients[c].Registering?) ==>
          e.Launch? || e.ReadIdentity? || (c in s.clients && s'.clients[c] == s.clients[c]))
  }

  lemma {:induction false} CommitIsOwn(waits: bool, s: Sys, c: nat, e: Event, s': Sys)
    requires Next(waits, s, c, e, s')
    requires || e.Launch? || e.ReadIdentity? || e.CommitRegister? || e.BeginList? || e.CommitList?
             || e.Unregister? || e.Abandon?
    ensures OwnStep(s, c, e, s')
  {
  }

  lemma {:induction false} ProbeIsOwn(waits: bool, s: Sys, c: nat, e: Event, s': Sys)
    requires Next(waits, s, c, e, s') && (e.ProbeList? || e.ProbeStop?)
    ensures OwnStep(s, c, e, s')
  {
  }

  lemma {:induction false} StopIsOwn(waits: bool, s: Sys, c: nat, e: Event, s': Sys)
    requires Next(waits, s, c, e, s') && (e.BeginStop? || e.Signal? || e.CommitRemove?)
    ensures OwnStep(s, c, e, s')
  {
  }

  lemma {:induction false} OwnStepKeeps(waits: bool, s: Sys, c: nat, e: Event, s': Sys)
    requires LaunchersInv(s) && Next(waits, s, c, e, s') && OwnStep(s, c, e, s')
    ensures LaunchersInv(s')
  {
    if e.ReadIdentity? { IdentityIsKnown(s, e.record); }
    forall d | d in s'.clients ensures LauncherInv(s'.table, s'.clients[d]) {
      if d in s.clients { assert LauncherInv(s.table, s.clients[d]); }
    }
  }

  lemma {:induction false} LaunchersKept(waits: bool, s: Sys, c: nat, e: Event, s': Sys)
    requires LaunchersInv(s) && Next(waits, s, c, e, s')
    ensures LaunchersInv(s')
  {
    match e
    case KernelMoves(step) =>
      StepEvolves(s.table, step, s'.table);
      KernelKeepsLaunchers(s, s');
    case MachineRestarts => RebootEvolves(s.table);
    case ProbeList(_) =>
      ProbeIsOwn(waits, s, c, e, s');
      OwnStepKeeps(waits, s, c, e, s');
    case ProbeStop(_) =>
      ProbeIsOwn(waits, s, c, e, s');
      OwnStepKeeps(waits, s, c, e, s');
    case BeginStop(_) =>
      StopIsOwn(waits, s, c, e, s');
      OwnStepKeeps(waits, s, c, e, s');
    case Signal(_, _, _) =>
      StopIsOwn(waits, s, c, e, s');
      OwnStepKeeps(waits, s, c, e, s');
    case CommitRemove(_) =>
      StopIsOwn(waits, s, c, e, s');
      OwnStepKeeps(waits, s, c, e, s');
    case _ =>
      CommitIsOwn(waits, s, c, e, s');
      OwnStepKeeps(waits, s, c, e, s');
  }

  lemma {:induction false} IdentityIsKnown(s: Sys, record: Record)
    requires exists state :: SeesIdentity(s.table, record.pid, Observed(state, record.startTime))
    ensures Known(s.table, record)
  {
    var state :| SeesIdentity(s.table, record.pid, Observed(state, record.startTime));
    var i: nat :| Holds(s.table, i, record.pid) && record.startTime == Print(s.table[i].id);
    assert Recorded(s.table, i, record.pid, record.startTime);
  }

  lemma {:induction false} LaunchersRun(waits: bool, run: seq<Sys>, actors: seq<nat>, events: seq<Event>, n: nat)
    requires IsRun(waits, run, actors, events) && n < |run|
    ensures LaunchersInv(run[n])
  {
    if n > 0 {
      LaunchersRun(waits, run, actors, events, n - 1);
      LaunchersKept(waits, run[n - 1], actors[n - 1], events[n - 1], run[n]);
    }
  }

  /** No tracked running process but the one the record names has its PID. */
  ghost predicate OnlyNamed(s: Sys, record: Record) {
    forall i | i in s.tracked && i < |s.table| && s.table[i].life.Running? && s.table[i].id.pid == record.pid ::
      Recorded(s.table, i, record.pid, record.startTime)
  }

  /**
   Whether launchers wait or not, a registration may drop another record of the same
   PID. The file still lists every tracked running incarnation exactly when none but the
   one the new record names runs under the registered PID.
   */
  lemma {:induction false} RegisterRetainsIff(waits: bool, s: Sys, c: nat, commit: Commit, s': Sys)
    requires LaunchersInv(s) && Retained(s) && Next(waits, s, c, CommitRegister(commit), s')
    requires RegisterState(s.durable, ClientOf(s, c).record).Ok? && Applied(commit)
    ensures Retained(s') <==> OnlyNamed(s', ClientOf(s, c).record)
  {
    var record := ClientOf(s, c).record;
    var named: nat :| Recorded(s.table, named, record.pid, record.startTime);
    RegisterMembers(s.durable, record);
    assert record in s'.durable;
    forall i | i in s'.tracked && i < |s.table| && s.table[i].life.Running?
      ensures Listed(s.table, s'.durable, i) <==>
              (s.table[i].id.pid == record.pid ==> Recorded(s.table, i, record.pid, record.startTime))
    {
      if i != named {
        if Recorded(s.table, i, record.pid, record.startTime) {
          SameTokenSameIncarnation(s.table, i, named, record.pid, record.startTime);
        }
        OtherListedIff(s.table, s.durable, s'.durable, named, record, i);
      }
    }
  }

  /** So on every run, at every registration that follows a state that lists all it must. */
  lemma {:induction false} RegistrationsRetainIff(waits: bool, run: seq<Sys>, actors: seq<nat>, events: seq<Event>,
      n: nat)
    requires IsRun(waits, run, actors, events) && n < |events| && events[n].CommitRegister? && Retained(run[n])
    requires ClientOf(run[n], actors[n]).Registering?
    requires RegisterState(run[n].durable, ClientOf(run[n], actors[n]).record).Ok? && Applied(events[n].commit)
    ensures Retained(run[n + 1]) <==> OnlyNamed(run[n + 1], ClientOf(run[n], actors[n]).record)
  {
    LaunchersRun(waits, run, actors, events, n);
    RegisterRetainsIff(waits, run[n], actors[n], events[n].commit, run[n + 1]);
  }

  /** Two processes that use one PID in turn, with their records. */
  ghost predicate Successors(a: Identity, ra: Record, b: Identity, rb: Record) {
    && Valid(a) && Valid(b) && a != b && a.pid == b.pid
    && ra.pid == a.pid && ra.startTime == Print(a) && rb.pid == b.pid && rb.startTime == Print(b)
  }

  /** The child of client 0 exits, is reaped unregistered, and loses its PID to `b`. */
  lemma {:induction false} ChildIsReplaced(a: Identity, ra: Record, b: Identity, rb: Record, s: Sys)
    requires Successors(a, ra, b, rb)
    requires s == Sys([Incarnation(a, Reaped), Incarnation(b, Running)], [], None, map[0 := Registering(0, ra)], {})
    ensures Reachable(false, s)
  {
    var fresh_ := Sys([Incarnation(a, Running)], [], None, map[], {});
    var held := With(fresh_, 0, Registering(0, ra));
    ReachableInit(false, fresh_);
    assert Holds(fresh_.table, 0, a.pid);
    Identified(false, fresh_, 0, 0, ra);
    var exited, reaped := held.(table := [Incarnation(a, Zombie)]), held.(table := [Incarnation(a, Reaped)]);
    ReachableNext(false, held, 0, KernelMoves(Exit(0)), exited);
    ReachableNext(false, exited, 0, KernelMoves(Reap(0)), reaped);
    ReachableNext(false, reaped, 0, KernelMoves(Spawn(b)), s);
  }

  /**
   Without waiting launchers: whatever two processes use one PID in turn, a run
   ends with the second tracked, running and unlisted, because the late
   registration of the first takes its record out.
   */
  lemma {:induction false} LateRegistrationDisplaces(a: Identity, ra: Record, b: Identity, rb: Record) returns (s: Sys)
    requires Successors(a, ra, b, rb)
    ensures Reachable(false, s) && !Retained(s)
    ensures s.table == [Incarnation(a, Reaped), Incarnation(b, Running)] && 1 in s.tracked
    ensures !Listed(s.table, s.durable, 1)
  {
    var s0 := Sys([Incarnation(a, Reaped), Incarnation(b, Running)], [], None, map[0 := Registering(0, ra)], {});
    ChildIsReplaced(a, ra, b, rb, s0);
    assert Holds(s0.table, 1, b.pid);
    Identified(false, s0, 1, 1, rb);
    var s1 := With(s0, 1, Registering(1, rb));
    RegistrationCommits(false, s1, 1, 1, rb);
    RegisterMembers([], rb);
    var s2 := Registered(s1, 1, 1, rb);
    assert RegisterState(s2.durable, ra).Ok? by { OtherPids(s2.durable, ra); }
    RegistrationCommits(false, s2, 0, 0, ra);
    s := Registered(s2, 0, 0, ra);
    RegisterMembers(s2.durable, ra);
    if Listed(s.table, s.durable, 1) { PrintInjective(a, b); }
  }

  /** A file that lists only one PID always has room for another record of it. */
  lemma {:induction false} OtherPids(ps: seq<Record>, record: Record)
    requires forall x | x in ps :: x.pid == record.pid
    ensures RegisterState(ps, record).Ok?
  {
    FilterNone(ps, (x: Record) => x.pid != record.pid);
  }
}
