/**
 The kernel's process table as the registry sees it.

 A table lists every incarnation ever spawned. An incarnation holds its PID from
 spawn until it is reaped, and no two incarnations share an identity.
 */
module ProcessTable {
  import opened Wrappers
  import opened IncarnationToken

  datatype Life = Running | Zombie | Reaped

  datatype Incarnation = Incarnation(id: Identity, life: Life)

  type Table = seq<Incarnation>

  ghost predicate Wf(k: Table) {
    && (forall i | 0 <= i < |k| :: Valid(k[i].id))
    && (forall i, j | 0 <= i < j < |k| :: k[i].id != k[j].id)
    && (forall i, j | 0 <= i < j < |k| :: !k[i].life.Reaped? && !k[j].life.Reaped? ==> k[i].id.pid != k[j].id.pid)
  }

  ghost predicate Holds(k: Table, i: nat, pid: nat) {
    i < |k| && !k[i].life.Reaped? && k[i].id.pid == pid
  }

  ghost predicate Free(k: Table, pid: nat) {
    forall i: nat | i < |k| :: !Holds(k, i, pid)
  }

  datatype KernelStep = Spawn(id: Identity) | Exit(i: nat) | Reap(i: nat)

  ghost predicate Step(k: Table, step: KernelStep, k': Table) {
    match step
    case Spawn(id) =>
      && Valid(id) && Free(k, id.pid) && (forall i | 0 <= i < |k| :: k[i].id != id)
      && k' == k + [Incarnation(id, Running)]
    case Exit(i) =>
      i < |k| && k[i].life.Running? && k' == k[i := k[i].(life := Zombie)]
    case Reap(i) =>
      i < |k| && k[i].life.Zombie? && k' == k[i := k[i].(life := Reaped)]
  }

  /** A machine restart ends every incarnation at once. */
  function Rebooted(k: Table): (k': Table)
    ensures |k'| == |k| && forall i | 0 <= i < |k| :: k'[i] == Incarnation(k[i].id, Reaped)
  {
    seq(|k|, i requires 0 <= i < |k| => Incarnation(k[i].id, Reaped))
  }

  function Rank(l: Life): nat {
    match l
    case Running => 0
    case Zombie => 1
    case Reaped => 2
  }

  /** Later tables keep every earlier incarnation, and lives only move forward. */
  ghost predicate Evolves(k: Table, k': Table) {
    && |k| <= |k'|
    && forall i | 0 <= i < |k| :: k'[i].id == k[i].id && Rank(k[i].life) <= Rank(k'[i].life)
  }

  lemma {:induction false} StepEvolves(k: Table, step: KernelStep, k': Table)
    requires Wf(k) && Step(k, step, k')
    ensures Wf(k') && Evolves(k, k')
  {
    if step.Spawn? {
      forall i | 0 <= i < |k|
        ensures !k[i].life.Reaped? ==> k[i].id.pid != step.id.pid
      {
        assert !Holds(k, i, step.id.pid);
      }
    }
  }

  lemma {:induction false} RebootEvolves(k: Table)
    requires Wf(k)
    ensures Wf(Rebooted(k)) && Evolves(k, Rebooted(k))
  {
  }

  /** The incarnation a token was printed from. */
  ghost predicate Recorded(k: Table, r: nat, pid: nat, token: string) {
    r < |k| && k[r].id.pid == pid && Print(k[r].id) == token
  }

  /** What a probe of the kernel may answer. Any probe may also fail. */

  ghost predicate SeesExists(k: Table, pid: nat, obs: Option<bool>) {
    obs.Some? ==> obs.value == !Free(k, pid)
  }

  datatype IdentityObs = Observed(state: char, token: string) | Vanished | Unreadable

  ghost predicate SeesIdentity(k: Table, pid: nat, obs: IdentityObs) {
    match obs
    case Observed(state, token) =>
      exists i: nat :: Holds(k, i, pid) && token == Print(k[i].id) && (k[i].life.Zombie? <==> state in {'Z', 'X'})
    case Vanished => Free(k, pid)
    case Unreadable => true
  }

  datatype Verdict = Live | Gone | Reused

  /** The liveness verdict from an existence probe and an identity probe; None is an error. */
  function ProcessState(pid: nat, expected: string, exists_: Option<bool>, identity: IdentityObs): Option<Verdict> {
    if !Supported(pid, expected) || exists_.None? then None
    else if !exists_.value then Some(Gone)
    else match identity
      case Observed(state, observed) =>
        if !Supported(pid, observed) then None
        else if state in {'Z', 'X'} then Some(Gone)
        else if observed == expected then Some(Live)
        else Some(Reused)
      case Vanished => Some(Gone)
      case Unreadable => None
  }

  /** Of the incarnations with one PID only the recorded one prints its token; any other holder has replaced it. */
  lemma {:induction false} HolderPrints(k: Table, r: nat, i: nat, pid: nat, token: string)
    requires Wf(k) && Recorded(k, r, pid, token) && Holds(k, i, pid)
    ensures Print(k[i].id) == token <==> i == r
    ensures i != r ==> k[r].life.Reaped?
  {
    if Print(k[i].id) == token {
      PrintInjective(k[i].id, k[r].id);
    }
  }

  /** What a verdict says about the recorded incarnation `r`. */
  ghost predicate Sound(k: Table, r: nat, pid: nat, v: Option<Verdict>) {
    r < |k| ==>
      && (v == Some(Live) ==> k[r].life.Running?)
      && (v == Some(Gone) ==> forall i: nat | Holds(k, i, pid) :: k[i].life.Zombie?)
      && (v == Some(Reused) ==> k[r].life.Reaped?)
  }

  lemma {:induction false} OnlyHolder(k: Table, i: nat, pid: nat)
    requires Wf(k) && Holds(k, i, pid)
    ensures forall j: nat | Holds(k, j, pid) :: j == i
  {
  }

  lemma {:induction false} ObservedSound(k: Table, r: nat, pid: nat, token: string, state: char, observed: string)
    requires Wf(k) && Recorded(k, r, pid, token) && SeesIdentity(k, pid, Observed(state, observed))
    ensures Sound(k, r, pid,
                  if state in {'Z', 'X'} then Some(Gone) else if observed == token then Some(Live) else Some(Reused))
  {
    var i: nat :| Holds(k, i, pid) && observed == Print(k[i].id) && (k[i].life.Zombie? <==> state in {'Z', 'X'});
    HolderPrints(k, r, i, pid, token);
    OnlyHolder(k, i, pid);
  }

  /**
   The verdict is sound when the identity probe ran on table `k` and the existence probe on an earlier
   or equal one.
   */
  lemma {:induction false} VerdictSound(k: Table, r: nat, pid: nat, token: string, obs: IdentityObs)
    requires Wf(k) && Recorded(k, r, pid, token) && SeesIdentity(k, pid, obs)
    ensures Sound(k, r, pid, ProcessState(pid, token, Some(true), obs))
  {
    if obs.Observed? {
      ObservedSound(k, r, pid, token, obs.state, obs.token);
    }
  }
}
