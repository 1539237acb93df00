/**
 Stopping one recorded process while exits, reaping and PID reuse go on around it.

 The stopper is a program counter advanced one system call at a time. `Advance`
 is the program; `Sees` says which answers the kernel may give; a run interleaves
 the two with kernel steps.
 */
module StopProtocol {
  import opened Wrappers
  import opened IncarnationToken
  import opened ProcessTable

  datatype StopOutcome = Terminated | Killed | AlreadyExited

  /** Which liveness check of the protocol is under way. */
  datatype Stage = Bind | Rebind | AwaitTerm | BeforeKill | AwaitKill

  datatype Pc =
    | ProbeExists(stage: Stage)
    | ProbeIdentity(stage: Stage)
    | OpenPidfd
    | SendTerm
    | SendKill
    | Done(outcome: StopOutcome)
    | Failed

  datatype Target = Unbound | Pidfd(incarnation: nat) | RawPid

  datatype Stopper = Stopper(pid: nat, token: string, pc: Pc, target: Target)

  datatype PidfdObs = Opened(incarnation: nat) | NoProcess | Unsupported | OpenError

  datatype Obs =
    | ExistsObs(exists_: Option<bool>)
    | IdentityProbe(identity: IdentityObs)
    | PidfdOpen(pidfd: PidfdObs)
    | SignalObs(delivered: Option<bool>)

  function Start(pid: nat, token: string): Stopper {
    Stopper(pid, token, ProbeExists(Bind), Unbound)
  }

  /** Control flow after a verdict; `expired` says the polling deadline has passed. */
  function AfterVerdict(stage: Stage, v: Option<Verdict>, expired: bool): Pc {
    if v.None? then Failed
    else match stage
      case Bind => if v.value.Live? then OpenPidfd else Done(AlreadyExited)
      case Rebind => if v.value.Reused? then Done(AlreadyExited) else SendTerm
      case AwaitTerm =>
        if !v.value.Live? then Done(Terminated)
        else if expired then ProbeExists(BeforeKill) else ProbeExists(AwaitTerm)
      case BeforeKill => if v.value.Live? then SendKill else Done(Terminated)
      case AwaitKill =>
        if !v.value.Live? then Done(Killed) else if expired then Failed else ProbeExists(AwaitKill)
  }

  /** One step of the stopping program on a kernel answer. */
  function Advance(s: Stopper, obs: Obs, expired: bool): Stopper {
    match (s.pc, obs)
    case (ProbeExists(stage), ExistsObs(e)) =>
      if Supported(s.pid, s.token) && e == Some(true) then s.(pc := ProbeIdentity(stage))
      else s.(pc := AfterVerdict(stage, ProcessState(s.pid, s.token, e, Unreadable), expired))
    case (ProbeIdentity(stage), IdentityProbe(i)) =>
      s.(pc := AfterVerdict(stage, ProcessState(s.pid, s.token, Some(true), i), expired))
    case (OpenPidfd, PidfdOpen(p)) =>
      (match p
       case Opened(i) => s.(pc := ProbeExists(Rebind), target := Pidfd(i))
       case NoProcess => s.(pc := Done(AlreadyExited))
       case Unsupported => s.(pc := SendTerm, target := RawPid)
       case OpenError => s.(pc := Failed))
    case (SendTerm, SignalObs(d)) =>
      if d.None? then s.(pc := Failed)
      else if d.value then s.(pc := ProbeExists(AwaitTerm)) else s.(pc := Done(AlreadyExited))
    case (SendKill, SignalObs(d)) =>
      if d.None? then s.(pc := Failed)
      else if d.value then s.(pc := ProbeExists(AwaitKill)) else s.(pc := Done(Killed))
    case _ => s
  }

  /** The answers the kernel may give to the stopper's next system call. */
  ghost predicate Sees(k: Table, s: Stopper, obs: Obs) {
    match s.pc
    case ProbeExists(_) => obs.ExistsObs? && SeesExists(k, s.pid, obs.exists_)
    case ProbeIdentity(_) => obs.IdentityProbe? && SeesIdentity(k, s.pid, obs.identity)
    case OpenPidfd =>
      obs.PidfdOpen? && (match obs.pidfd
                         case Opened(i) => Holds(k, i, s.pid)
                         case NoProcess => Free(k, s.pid)
                         case Unsupported => true
                         case OpenError => true)
    case SendTerm => obs.SignalObs? && SeesSignal(k, s, obs.delivered)
    case SendKill => obs.SignalObs? && SeesSignal(k, s, obs.delivered)
    case Done(_) => false
    case Failed => false
  }

  ghost predicate SeesSignal(k: Table, s: Stopper, delivered: Option<bool>) {
    delivered.Some? ==>
      match s.target
      case Pidfd(t) => t < |k| && delivered.value == !k[t].life.Reaped?
      case RawPid => delivered.value == !Free(k, s.pid)
      case Unbound => false
  }

  datatype Signal = Term | Kill

  /** A signal that reached some incarnation, and whether that one was running. */
  datatype Delivery = Delivery(signal: Signal, to: nat, running: bool, bound: bool)

  ghost predicate Delivers(k: Table, s: Stopper, obs: Obs, d: Delivery) {
    && (s.pc.SendTerm? || s.pc.SendKill?) && obs == SignalObs(Some(true))
    && d.signal == (if s.pc.SendTerm? then Term else Kill)
    && d.to < |k| && d.running == k[d.to].life.Running? && d.bound == s.target.Pidfd?
    && (match s.target
        case Pidfd(t) => d.to == t
        case RawPid => Holds(k, d.to, s.pid)
        case Unbound => false)
  }

  ghost predicate DeliversNothing(s: Stopper, obs: Obs) {
    !(s.pc.SendTerm? || s.pc.SendKill?) || obs != SignalObs(Some(true))
  }

  /** Past the second identity check: the target is what signals go to. */
  predicate IsBound(pc: Pc) {
    match pc
    case ProbeExists(stage) => stage.AwaitTerm? || stage.BeforeKill? || stage.AwaitKill?
    case ProbeIdentity(stage) => stage.AwaitTerm? || stage.BeforeKill? || stage.AwaitKill?
    case SendTerm => true
    case SendKill => true
    case _ => false
  }

  predicate IsRebinding(pc: Pc) {
    (pc.ProbeExists? || pc.ProbeIdentity?) && pc.stage.Rebind?
  }

  /** What holds of the target at each point of the program, for the recorded incarnation `r`. */
  ghost predicate Aimed(k: Table, s: Stopper, r: nat) {
    && r < |k|
    && (s.target.Pidfd? ==>
          && s.target.incarnation < |k| && k[s.target.incarnation].id.pid == s.pid
          && (s.target.incarnation != r ==> k[r].life.Reaped?))
    && (IsRebinding(s.pc) ==> s.target.Pidfd?)
    && (IsBound(s.pc) ==> !s.target.Unbound?)
    && (IsBound(s.pc) && s.target.Pidfd? && k[s.target.incarnation].life.Running? ==> s.target.incarnation == r)
    && (s.pc.Done? ==> !k[r].life.Running?)
  }

  ghost predicate Inv(k: Table, s: Stopper, r: nat) {
    Wf(k) && Recorded(k, r, s.pid, s.token) && Aimed(k, s, r)
  }

  lemma {:induction false} KernelKeepsInv(k: Table, s: Stopper, r: nat, k': Table)
    requires Inv(k, s, r) && Wf(k') && Evolves(k, k')
    ensures Inv(k', s, r)
  {
  }

  /** A sound verdict moves the program on without losing its aim. */
  lemma {:induction false} VerdictKeepsAim(k: Table, s: Stopper, r: nat, stage: Stage, v: Option<Verdict>,
      expired: bool)
    requires Aimed(k, s, r) && k[r].id.pid == s.pid && Sound(k, r, s.pid, v)
    requires s.pc == ProbeExists(stage) || s.pc == ProbeIdentity(stage)
    ensures Aimed(k, s.(pc := AfterVerdict(stage, v, expired)), r)
  {
    assert k[r].life.Running? ==> Holds(k, r, s.pid);
    if s.target.Pidfd? {
      var t := s.target.incarnation;
      assert k[t].life.Running? ==> Holds(k, t, s.pid);
    }
  }

  lemma {:induction false} ExistsKeepsAim(k: Table, s: Stopper, r: nat, obs: Obs, expired: bool)
    requires Inv(k, s, r) && s.pc.ProbeExists? && Sees(k, s, obs)
    ensures Aimed(k, Advance(s, obs, expired), r)
  {
    var v := ProcessState(s.pid, s.token, obs.exists_, Unreadable);
    assert v != Some(Live) && v != Some(Reused);
    assert obs.exists_ == Some(true) ==> v != Some(Gone);
    VerdictKeepsAim(k, s, r, s.pc.stage, v, expired);
  }

  lemma {:induction false} IdentityKeepsAim(k: Table, s: Stopper, r: nat, obs: Obs, expired: bool)
    requires Inv(k, s, r) && s.pc.ProbeIdentity? && Sees(k, s, obs)
    ensures Aimed(k, Advance(s, obs, expired), r)
  {
    VerdictSound(k, r, s.pid, s.token, obs.identity);
    VerdictKeepsAim(k, s, r, s.pc.stage, ProcessState(s.pid, s.token, Some(true), obs.identity), expired);
  }

  /** Opening the pidfd and sending signals. */
  lemma {:induction false} CallKeepsAim(k: Table, s: Stopper, r: nat, obs: Obs, expired: bool)
    requires Wf(k) && Aimed(k, s, r) && k[r].id.pid == s.pid && Sees(k, s, obs)
    requires s.pc.OpenPidfd? || s.pc.SendTerm? || s.pc.SendKill?
    ensures Aimed(k, Advance(s, obs, expired), r)
  {
    assert k[r].life.Running? ==> Holds(k, r, s.pid);
  }

  lemma {:induction false} AdvanceKeepsInv(k: Table, s: Stopper, r: nat, obs: Obs, expired: bool)
    requires Inv(k, s, r) && Sees(k, s, obs)
    ensures Inv(k, Advance(s, obs, expired), r)
  {
    match s.pc {
      case ProbeExists(_) => ExistsKeepsAim(k, s, r, obs, expired);
      case ProbeIdentity(_) => IdentityKeepsAim(k, s, r, obs, expired);
      case _ => CallKeepsAim(k, s, r, obs, expired);
    }
  }

  /** A delivery through a bound pidfd reaches the recorded incarnation or one that is not running. */
  lemma {:induction false} DeliverySafe(k: Table, s: Stopper, r: nat, obs: Obs, d: Delivery)
    requires Inv(k, s, r) && Delivers(k, s, obs, d)
    ensures d.bound && d.running ==> d.to == r
  {
  }

  /** A delivery to a raw PID reaches the recorded incarnation exactly while that has not been reaped. */
  lemma {:induction false} RawDeliveryIff(k: Table, s: Stopper, r: nat, obs: Obs, d: Delivery)
    requires Inv(k, s, r) && Delivers(k, s, obs, d) && !d.bound
    ensures d.to == r <==> !k[r].life.Reaped?
  {
    if !k[r].life.Reaped? { assert Holds(k, r, s.pid); }
  }

  datatype World = World(table: Table, stopper: Stopper, sent: seq<Delivery>)

  datatype Event = Kernel(step: KernelStep) | Call(obs: Obs, expired: bool)

  ghost predicate Next(w: World, e: Event, w': World) {
    match e
    case Kernel(step) => Step(w.table, step, w'.table) && w' == w.(table := w'.table)
    case Call(obs, expired) =>
      && Sees(w.table, w.stopper, obs)
      && w'.table == w.table && w'.stopper == Advance(w.stopper, obs, expired)
      && if DeliversNothing(w.stopper, obs) then w'.sent == w.sent
         else exists d :: Delivers(w.table, w.stopper, obs, d) && w'.sent == w.sent + [d]
  }

  function Kinds(sent: seq<Delivery>): seq<Signal> {
    seq(|sent|, i requires 0 <= i < |sent| => sent[i].signal)
  }

  /** Which signals have been delivered by the time the program is at `pc`. */
  ghost predicate Escalation(pc: Pc, sent: seq<Delivery>) {
    var kinds := Kinds(sent);
    match pc
    case ProbeExists(stage) => kinds == DeliveredBefore(stage)
    case ProbeIdentity(stage) => kinds == DeliveredBefore(stage)
    case OpenPidfd => kinds == []
    case SendTerm => kinds == []
    case SendKill => kinds == [Term]
    case Done(AlreadyExited) => kinds == []
    case Done(Terminated) => kinds == [Term]
    case Done(Killed) => kinds == [Term] || kinds == [Term, Kill]
    case Failed => kinds <= [Term, Kill]
  }

  function DeliveredBefore(stage: Stage): seq<Signal> {
    match stage
    case Bind => []
    case Rebind => []
    case AwaitTerm => [Term]
    case BeforeKill => [Term]
    case AwaitKill => [Term, Kill]
  }

  lemma {:induction false} VerdictEscalates(stage: Stage, v: Option<Verdict>, expired: bool, sent: seq<Delivery>)
    requires Kinds(sent) == DeliveredBefore(stage)
    ensures Escalation(AfterVerdict(stage, v, expired), sent)
  {
  }

  lemma {:induction false} ProbeEscalates(s: Stopper, obs: Obs, expired: bool, sent: seq<Delivery>)
    requires s.pc.ProbeExists? || s.pc.ProbeIdentity?
    requires Escalation(s.pc, sent)
    ensures Escalation(Advance(s, obs, expired).pc, sent)
  {
    if s.pc.ProbeExists? && obs.ExistsObs? {
      VerdictEscalates(s.pc.stage, ProcessState(s.pid, s.token, obs.exists_, Unreadable), expired, sent);
    }
    if s.pc.ProbeIdentity? && obs.IdentityProbe? {
      VerdictEscalates(s.pc.stage, ProcessState(s.pid, s.token, Some(true), obs.identity), expired, sent);
    }
  }

  lemma {:induction false} CallEscalates(s: Stopper, obs: Obs, expired: bool, before: seq<Delivery>,
      after: seq<Delivery>)
    requires !s.pc.ProbeExists? && !s.pc.ProbeIdentity? && Escalation(s.pc, before)
    requires DeliversNothing(s, obs) ==> after == before
    requires !DeliversNothing(s, obs) ==> Kinds(after) == Kinds(before) + [if s.pc.SendTerm? then Term else Kill]
    ensures Escalation(Advance(s, obs, expired).pc, after)
  {
  }

  lemma {:induction false} SignalsEscalate(w: World, obs: Obs, expired: bool, w': World)
    requires Escalation(w.stopper.pc, w.sent) && Next(w, Call(obs, expired), w')
    ensures Escalation(w'.stopper.pc, w'.sent)
  {
    if w.stopper.pc.ProbeExists? || w.stopper.pc.ProbeIdentity? {
      ProbeEscalates(w.stopper, obs, expired, w.sent);
    } else {
      if !DeliversNothing(w.stopper, obs) {
        var d :| Delivers(w.table, w.stopper, obs, d) && w'.sent == w.sent + [d];
        assert Kinds(w'.sent) == Kinds(w.sent) + [d.signal];
      }
      CallEscalates(w.stopper, obs, expired, w.sent, w'.sent);
    }
  }

  /** Every interleaving: a start state and one event per later state. */
  ghost predicate IsRun(run: seq<World>, events: seq<Event>, pid: nat, token: string) {
    && |run| == |events| + 1
    && Wf(run[0].table) && run[0].stopper == Start(pid, token) && run[0].sent == []
    && forall i | 0 <= i < |events| :: Next(run[i], events[i], run[i + 1])
  }

  /** Everything known of a reachable state. */
  ghost predicate Safe(w: World, r: nat) {
    && Inv(w.table, w.stopper, r) && Escalation(w.stopper.pc, w.sent)
    && forall d | d in w.sent :: d.bound && d.running ==> d.to == r
  }

  lemma {:induction false} CallKeepsSafe(w: World, obs: Obs, expired: bool, w': World, r: nat)
    requires Safe(w, r) && Next(w, Call(obs, expired), w')
    ensures Safe(w', r)
  {
    AdvanceKeepsInv(w.table, w.stopper, r, obs, expired);
    SignalsEscalate(w, obs, expired, w');
    if !DeliversNothing(w.stopper, obs) {
      var d :| Delivers(w.table, w.stopper, obs, d) && w'.sent == w.sent + [d];
      DeliverySafe(w.table, w.stopper, r, obs, d);
    }
  }

  lemma {:induction false} KernelKeepsSafe(w: World, step: KernelStep, w': World, r: nat)
    requires Safe(w, r) && Next(w, Kernel(step), w')
    ensures Safe(w', r)
  {
    StepEvolves(w.table, step, w'.table);
    KernelKeepsInv(w.table, w.stopper, r, w'.table);
  }

  lemma {:induction false} RunInvariant(run: seq<World>, events: seq<Event>, pid: nat, token: string, r: nat, n: nat)
    requires IsRun(run, events, pid, token) && Recorded(run[0].table, r, pid, token) && n < |run|
    ensures Safe(run[n], r)
  {
    if n > 0 {
      RunInvariant(run, events, pid, token, r, n - 1);
      assert Next(run[n - 1], events[n - 1], run[n]);
      match events[n - 1] {
        case Kernel(step) => KernelKeepsSafe(run[n - 1], step, run[n], r);
        case Call(obs, expired) => CallKeepsSafe(run[n - 1], obs, expired, run[n], r);
      }
    }
  }

  /**
   In every interleaving, a signal sent through a bound pidfd never reaches a
   running process other than the recorded one, and every successful outcome is
   reported only once the recorded incarnation has stopped running. The outcome
   also tells which signals went out: none, a TERM, or a TERM and then a KILL.
   */
  lemma {:induction false} StopIsSafe(run: seq<World>, events: seq<Event>, pid: nat, token: string, r: nat)
    requires IsRun(run, events, pid, token) && Recorded(run[0].table, r, pid, token)
    ensures forall n: nat, d | n < |run| && d in run[n].sent :: d.bound && d.running ==> d.to == r
    ensures forall n: nat | n < |run| && run[n].stopper.pc.Done? ::
              r < |run[n].table| && !run[n].table[r].life.Running?
    ensures forall n: nat | n < |run| :: Escalation(run[n].stopper.pc, run[n].sent)
  {
    forall n: nat | n < |run| ensures Safe(run[n], r) {
      RunInvariant(run, events, pid, token, r, n);
    }
  }

  /**
   In every interleaving, a signal sent to a raw PID hits the recorded incarnation exactly
   when that has not been reaped by then.
   */
  lemma {:induction false} RawSignalHitsIff(run: seq<World>, events: seq<Event>, pid: nat, token: string, r: nat,
      n: nat, d: Delivery)
    requires IsRun(run, events, pid, token) && Recorded(run[0].table, r, pid, token)
    requires n < |events| && run[n + 1].sent == run[n].sent + [d] && !d.bound
    ensures r < |run[n].table| && (d.to == r <==> !run[n].table[r].life.Reaped?)
  {
    var w, w' := run[n], run[n + 1];
    RunInvariant(run, events, pid, token, r, n);
    assert Next(w, events[n], w') && |w'.sent| > |w.sent|;
    var obs := events[n].obs;
    var e :| Delivers(w.table, w.stopper, obs, e) && w'.sent == w.sent + [e];
    assert e == w'.sent[|w.sent|] == d;
    RawDeliveryIff(w.table, w.stopper, r, obs, d);
  }

  /**
   Without pidfds the guarantee is gone. Whatever process `a` was recorded, if
   some `b` may later get its PID, then on this run `a` exits and is replaced by
   `b` between the check and the signal, which reaches `b` while it is running.
   */
  lemma {:induction false} RawPidMisfires(a: Identity, b: Identity) returns (run: seq<World>, events: seq<Event>)
    requires Valid(a) && Valid(b) && a.pid == b.pid && a != b
    ensures IsRun(run, events, a.pid, Print(a)) && Recorded(run[0].table, 0, a.pid, Print(a))
    ensures Delivery(Term, 1, true, false) in run[|run| - 1].sent
  {
    var pid, token := a.pid, Print(a);
    var w0 := World([Incarnation(a, Running)], Start(pid, token), []);
    var w1 := w0.(stopper := Stopper(pid, token, ProbeIdentity(Bind), Unbound));
    var w2 := w0.(stopper := Stopper(pid, token, OpenPidfd, Unbound));
    var w3 := w0.(stopper := Stopper(pid, token, SendTerm, RawPid));
    var w4, w5 := w3.(table := [Incarnation(a, Zombie)]), w3.(table := [Incarnation(a, Reaped)]);
    var w6 := w3.(table := [Incarnation(a, Reaped), Incarnation(b, Running)]);
    MisfireCheck(a, w0, w1, w2, w3);
    MisfireReplace(a, b, w3, w4, w5, w6);
    var w7 := MisfireSignal(a, b);
    run, events := [w0], [];
    run, events := Extended(run, events, pid, token, Call(ExistsObs(Some(true)), false), w1);
    run, events := Extended(run, events, pid, token, Call(IdentityProbe(Observed('S', token)), false), w2);
    run, events := Extended(run, events, pid, token, Call(PidfdOpen(Unsupported), false), w3);
    run, events := Extended(run, events, pid, token, Kernel(Exit(0)), w4);
    run, events := Extended(run, events, pid, token, Kernel(Reap(0)), w5);
    run, events := Extended(run, events, pid, token, Kernel(Spawn(b)), w6);
    run, events := Extended(run, events, pid, token, Call(SignalObs(Some(true)), false), w7);
  }

  lemma {:induction false} Extended(run: seq<World>, events: seq<Event>, pid: nat, token: string, e: Event, w: World)
    returns (run': seq<World>, events': seq<Event>)
    requires IsRun(run, events, pid, token) && Next(run[|run| - 1], e, w)
    ensures IsRun(run', events', pid, token) && run'[0] == run[0] && run'[|run'| - 1] == w
  {
    run', events' := run + [w], events + [e];
    forall i | 0 <= i < |events'| ensures Next(run'[i], events'[i], run'[i + 1]) {
      if i < |events| { assert Next(run[i], events[i], run[i + 1]); }
    }
  }

  /** The check passes and no pidfd is to be had. */
  lemma {:induction false} MisfireCheck(a: Identity, w0: World, w1: World, w2: World, w3: World)
    requires Valid(a) && w0 == World([Incarnation(a, Running)], Start(a.pid, Print(a)), [])
    requires w1 == w0.(stopper := Stopper(a.pid, Print(a), ProbeIdentity(Bind), Unbound))
    requires w2 == w0.(stopper := Stopper(a.pid, Print(a), OpenPidfd, Unbound))
    requires w3 == w0.(stopper := Stopper(a.pid, Print(a), SendTerm, RawPid))
    ensures Next(w0, Call(ExistsObs(Some(true)), false), w1)
    ensures Next(w1, Call(IdentityProbe(Observed('S', Print(a))), false), w2)
    ensures Next(w2, Call(PidfdOpen(Unsupported), false), w3)
  {
    PrintedIsSupported(a);
    assert Holds(w0.table, 0, a.pid);
  }

  /** The recorded process exits, is reaped, and another takes its PID. */
  lemma {:induction false} MisfireReplace(a: Identity, b: Identity, w3: World, w4: World, w5: World, w6: World)
    requires Valid(a) && Valid(b) && a.pid == b.pid && a != b && w3.table == [Incarnation(a, Running)]
    requires w4 == w3.(table := [Incarnation(a, Zombie)]) && w5 == w3.(table := [Incarnation(a, Reaped)])
    requires w6 == w3.(table := [Incarnation(a, Reaped), Incarnation(b, Running)])
    ensures Next(w3, Kernel(Exit(0)), w4) && Next(w4, Kernel(Reap(0)), w5) && Next(w5, Kernel(Spawn(b)), w6)
  {
  }

  lemma {:induction false} MisfireSignal(a: Identity, b: Identity) returns (w': World)
    requires Valid(a) && Valid(b) && a.pid == b.pid && a != b
    ensures var w := World([Incarnation(a, Reaped), Incarnation(b, Running)],
                           Stopper(a.pid, Print(a), SendTerm, RawPid), []);
      Next(w, Call(SignalObs(Some(true)), false), w')
    ensures Delivery(Term, 1, true, false) in w'.sent
  {
    var k := [Incarnation(a, Reaped), Incarnation(b, Running)];
    var s := Stopper(a.pid, Print(a), SendTerm, RawPid);
    var d := Delivery(Term, 1, true, false);
    assert Holds(k, 1, a.pid);
    w' := World(k, Advance(s, SignalObs(Some(true)), false), [d]);
    assert Delivers(k, s, SignalObs(Some(true)), d) && [d] == [] + [d];
  }
}
