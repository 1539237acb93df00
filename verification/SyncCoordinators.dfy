/** The claim coordinator as the shared object its callers lock and update. */
module SyncCoordinators {
  import opened Wrappers
  import opened Sequences
  import opened Ordering
  import opened ArtifactPaths
  import opened Claims
  import opened ClaimCoordinator
  import opened ClaimRuns
  import opened ClaimSnapshots

  class SyncCoordinator {
    var nextToken: nat
    var claims: seq<Held>
    var subordinateClaims: seq<PathClaim>
    var subordinateBindings: seq<Binding>

    function State(): Inner
      reads this
    {
      Inner(nextToken, claims, subordinateClaims, subordinateBindings)
    }

    ghost predicate Valid()
      reads this
    {
      Inv(State())
    }

    constructor ()
      ensures Valid() && State() == Empty
    {
      nextToken, claims, subordinateClaims, subordinateBindings := 1, [], [], [];
    }

    constructor Of(inner: Inner)
      ensures State() == inner
    {
      nextToken, claims := inner.next, inner.claims;
      subordinateClaims, subordinateBindings := inner.children, inner.bindings;
    }

    method ClaimPathsFor(agent: string, raws: seq<RawPath>) returns (r: Result<PathClaim, SyncError>)
      requires Valid()
      modifies this
      ensures Valid()
      ensures var step := ClaimOp(old(State()), agent, raws); State() == step.inner && r == step.result
    {
      ClaimKeeps(State(), agent, raws);
      var name := NormalizeAgent(agent);
      if name.None? { return Err(BadAgent); }
      var paths := NormalizeClaims(raws);
      if paths.Err? { return Err(BadPaths(paths.error)); }
      r := GrantPaths(name.value, paths.value);
    }

    /** Takes the next token and inserts the paths under it. */
    method GrantPaths(agent: string, paths: seq<Path>) returns (r: Result<PathClaim, SyncError>)
      modifies this
      ensures var step := Grant(old(State()), agent, paths); State() == step.inner && r == step.result
    {
      var token := nextToken;
      if nextToken >= U64_MAX { return Err(TokenExhausted); }
      nextToken := nextToken + 1;
      var inserted := InsertClaim(claims, token, agent, paths);
      if inserted.Err? { return Err(inserted.error); }
      claims := inserted.value;
      return Ok(PathClaim(token, agent, paths));
    }

    method ClaimSubordinatePaths(parent: PathClaim, worker: string, raws: seq<RawPath>, digest: string)
      returns (r: Result<PathClaim, SyncError>)
      requires Valid()
      modifies this
      ensures Valid()
      ensures var step := SubordinateOp(old(State()), parent, worker, raws, digest);
              State() == step.inner && r == step.result
    {
      SubordinateKeeps(State(), parent, worker, raws, digest);
      if ClaimFor(claims, parent.token) != Some(parent) { return Err(InvalidSubordinate); }
      var paths := NormalizeClaims(raws);
      if paths.Err? { return Err(BadPaths(paths.error)); }
      if AsRaws(paths.value) != raws || !ValidDigest(digest) { return Err(InvalidSubordinate); }
      r := GrantScope(parent, worker, paths.value, digest);
    }

    /** Cuts a checked scope out of its parent's claim. */
    method GrantScope(parent: PathClaim, worker: string, paths: seq<Path>, digest: string)
      returns (r: Result<PathClaim, SyncError>)
      modifies this
      ensures var step := GrantWithin(old(State()), parent, worker, paths, digest);
              State() == step.inner && r == step.result
    {
      if Replayed(subordinateBindings, parent.token, digest, worker) { return Err(SubordinateReplay); }
      if NormalizeAgent(worker).None? { return Err(BadAgent); }
      if !ScopeOk(State(), parent, worker, paths) { return Err(InvalidSubordinate); }
      if nextToken >= U64_MAX { return Err(TokenExhausted); }
      var claim := PathClaim(nextToken, worker, paths);
      subordinateClaims := subordinateClaims + [claim];
      subordinateBindings := subordinateBindings + [Binding(nextToken, parent.token, digest, worker, paths)];
      nextToken := nextToken + 1;
      return Ok(claim);
    }

    method Release(token: nat) returns (r: Result<PathClaim, SyncError>)
      requires Valid()
      modifies this
      ensures Valid()
      ensures var step := ReleaseOp(old(State()), token); State() == step.inner && r == step.result
    {
      ReleaseKeeps(State(), token);
      if HasActiveChild(State(), token) { return Err(ActiveSubordinates); }
      var child := Child(subordinateClaims, token);
      if child.Some? {
        subordinateClaims := Retain(subordinateClaims, OtherChild(token));
        return Ok(child.value);
      }
      var released := ClaimFor(claims, token);
      if released.None? { return Err(UnknownToken); }
      claims := Retain(claims, OtherToken(token));
      return Ok(released.value);
    }

    /** Returns the released claims in the order of their tokens. */
    method ReleaseByAgent(agent: string) returns (r: Result<seq<PathClaim>, SyncError>)
      requires Valid()
      modifies this
      ensures Valid()
      ensures var step := ReleaseAgentOp(old(State()), agent);
        && State() == step.inner
        && (if r.Ok? then step.result.Ok? && ListsByToken(r.value, step.result.value) else step.result == Err(r.error))
    {
      ReleaseAgentKeeps(State(), agent);
      var name := NormalizeAgent(agent);
      if name.None? { return Err(BadAgent); }
      if exists h | h in claims :: h.agent == name.value && HasActiveChild(State(), h.token) {
        return Err(ActiveSubordinates);
      }
      ReleasedTokensDiffer(State(), name.value);
      var released := ByToken(ReleasedBy(State(), name.value));
      claims := Retain(claims, OtherAgent(name.value));
      subordinateClaims := Retain(subordinateClaims, OtherWorker(name.value));
      return Ok(released);
    }

    /** At most one agent gets a yes, for this path and for every path above or below it. */
    method MayWrite(agent: string, raw: RawPath) returns (r: Result<bool, SyncError>)
      requires Valid()
      ensures r.Ok? <==> NormalizeAgent(agent).Some? && Normalize(raw).Ok?
      ensures r.Ok? ==> r.value == CanWrite(State(), NormalizeAgent(agent).value, Normalize(raw).value)
      ensures r == Ok(true) ==> forall other, path ::
              Overlap(Normalize(raw).value, path) && CanWrite(State(), other, path) ==>
                other == NormalizeAgent(agent).value
    {
      var name := NormalizeAgent(agent);
      if name.None? { return Err(BadAgent); }
      var path := NormalizeLoop(raw);
      if path.Err? { return Err(BadPaths(path.error)); }
      var p := path.value;
      var n := 0;
      while n < |subordinateClaims|
        invariant n <= |subordinateClaims|
        invariant FirstTouching(subordinateClaims, p) == FirstTouching(subordinateClaims[n..], p)
      {
        if Touches(subordinateClaims[n].paths, p) { break; }
        n := n + 1;
      }
      var yes := if n < |subordinateClaims|
        then subordinateClaims[n].agent == name.value && Covered(subordinateClaims[n].paths, p)
        else exists h | h in claims :: h.agent == name.value && Covers(h.path, p);
      if yes {
        forall other, q | Overlap(p, q) && CanWrite(State(), other, q) ensures other == name.value {
          WritersExclude(State(), name.value, p, other, q);
        }
      }
      return Ok(yes);
    }

    /** A snapshot that lists every claim and scope once. */
    method ToSnapshot() returns (snap: Snapshot, saved: seq<SavedBinding>)
      requires Valid()
      ensures Saves(State(), snap, saved)
      ensures Load(snap, saved).Some? <==> WorkersHoldNoClaims(State())
      ensures WorkersHoldNoClaims(State()) ==> Load(snap, saved) == Some(State())
    {
      var groups := GroupClaims(claims);
      var listed := ListGroups(State(), groups);
      saved := SaveAll(State());
      snap := Snapshot(nextToken, listed);
      RoundTripIff(State(), snap, saved);
    }
  }

  /** Refuses a request that meets a claimed path; otherwise adds every path. */
  method InsertClaim(claims: seq<Held>, token: nat, agent: string, paths: seq<Path>)
    returns (r: Result<seq<Held>, SyncError>)
    ensures r == if Conflicts(claims, paths) then Err(Conflict) else Ok(InsertAll(claims, token, agent, paths))
  {
    var conflict := FindConflict(claims, paths);
    if conflict { return Err(Conflict); }
    var all := claims;
    for n := 0 to |paths|
      invariant all == InsertAll(claims, token, agent, paths[..n])
    {
      assert paths[..n + 1][..n] == paths[..n];
      all := Insert(Held(paths[n], token, agent), all, HeldLe);
    }
    assert paths[..|paths|] == paths;
    return Ok(all);
  }

  method FindConflict(claims: seq<Held>, paths: seq<Path>) returns (conflict: bool)
    ensures conflict <==> Conflicts(claims, paths)
  {
    for n := 0 to |paths|
      invariant forall i | 0 <= i < n :: Unclaimed(claims, paths[i])
    {
      if !Unclaimed(claims, paths[n]) {
        ConflictAt(claims, paths, n);
        return true;
      }
    }
    NoConflict(claims, paths);
    return false;
  }

  predicate Unclaimed(claims: seq<Held>, path: Path) {
    forall h | h in claims :: !Overlap(path, h.path)
  }

  lemma {:induction false} ConflictAt(claims: seq<Held>, paths: seq<Path>, n: nat)
    requires n < |paths| && !Unclaimed(claims, paths[n])
    ensures Conflicts(claims, paths)
  {
    var h :| h in claims && Overlap(paths[n], h.path);
    assert paths[n] in paths;
    assert Touches(paths, h.path);
  }

  lemma {:induction false} NoConflict(claims: seq<Held>, paths: seq<Path>)
    requires forall i | 0 <= i < |paths| :: Unclaimed(claims, paths[i])
    ensures !Conflicts(claims, paths)
  {
  }

  predicate DifferentTokens(a: PathClaim, b: PathClaim) {
    a.token != b.token
  }

  /** The list holds exactly the given claims, in strictly ascending token order. */
  ghost predicate ListsByToken(listed: seq<PathClaim>, claims: set<PathClaim>) {
    && (forall c :: c in listed <==> c in claims)
    && Pairwise(listed, TokenLe) && Pairwise(listed, DifferentTokens)
  }

  lemma {:induction false} InsertByToken(c: PathClaim, listed: seq<PathClaim>, claims: set<PathClaim>)
    requires ListsByToken(listed, claims) && forall d | d in claims :: d.token != c.token
    ensures ListsByToken(Insert(c, listed, TokenLe), claims + {c})
  {
    TokenLeOrders();
    InsertSorted(c, listed, TokenLe);
    InsertPairwise(c, listed, TokenLe, DifferentTokens);
    InsertMembers(c, listed, TokenLe);
  }

  ghost predicate TokensDiffer(claims: set<PathClaim>) {
    forall c, d | c in claims && d in claims && c.token == d.token :: c == d
  }

  method ByToken(claims: set<PathClaim>) returns (listed: seq<PathClaim>)
    requires TokensDiffer(claims)
    ensures ListsByToken(listed, claims)
  {
    listed := [];
    var pending := claims;
    while pending != {}
      invariant pending <= claims && ListsByToken(listed, claims - pending)
      decreases |pending|
    {
      var c :| c in pending;
      InsertByToken(c, listed, claims - pending);
      assert claims - pending + {c} == claims - (pending - {c});
      listed := Insert(c, listed, TokenLe);
      pending := pending - {c};
    }
    assert claims - pending == claims;
  }

  lemma {:induction false} ReleasedTokensDiffer(s: Inner, agent: string)
    requires Inv(s)
    ensures TokensDiffer(ReleasedBy(s, agent))
  {
    forall h | h in s.claims ensures !HasChild(s.children, h.token) { HeldIsNoScope(s, h); }
    forall h | h in s.claims
      ensures ClaimFor(s.claims, h.token).Some? ==> ClaimFor(s.claims, h.token).value.token == h.token
    {
      ClaimForMeaning(s.claims, h.token);
    }
    forall c, d | c in s.children && d in s.children && c.token == d.token ensures c == d {
      PairOf(s.children, c, d, Siblings);
    }
  }

  lemma {:induction false} HeldIsNoScope(s: Inner, h: Held)
    requires Inv(s) && h in s.claims
    ensures !HasChild(s.children, h.token)
  {
    assert HeldOk(s, h);
    forall c | c in s.children ensures c.token != h.token { var b := ParentOf(s, c); }
  }

  /** Groups the claimed paths by token, in path order. */
  method GroupClaims(claims: seq<Held>) returns (groups: map<nat, PathClaim>)
    ensures forall t :: t in groups <==> ClaimFor(claims, t).Some?
    ensures forall t | t in groups :: ClaimFor(claims, t) == Some(groups[t])
  {
    groups := map[];
    for n := 0 to |claims|
      invariant forall t :: t in groups <==> ClaimFor(claims[..n], t).Some?
      invariant forall t | t in groups :: ClaimFor(claims[..n], t) == Some(groups[t])
    {
      var h := claims[n];
      forall t: nat ensures ClaimFor(claims[..n + 1], t) == Extended(ClaimFor(claims[..n], t), h, t) {
        GroupStep(claims, n, t);
      }
      if h.token in groups {
        groups := groups[h.token := groups[h.token].(paths := groups[h.token].paths + [h.path])];
      } else {
        groups := groups[h.token := PathClaim(h.token, h.agent, [h.path])];
      }
    }
    assert claims[..|claims|] == claims;
  }

  function Extended(c: Option<PathClaim>, h: Held, token: nat): Option<PathClaim> {
    if h.token != token then c
    else if c.None? then Some(PathClaim(token, h.agent, [h.path]))
    else Some(c.value.(paths := c.value.paths + [h.path]))
  }

  lemma {:induction false} GroupStep(claims: seq<Held>, n: nat, token: nat)
    requires n < |claims|
    ensures ClaimFor(claims[..n + 1], token) == Extended(ClaimFor(claims[..n], token), claims[n], token)
  {
    FilterStep(claims, n, OfToken(token));
    var h, mine, all := claims[n], Filter(claims[..n], OfToken(token)), Filter(claims[..n + 1], OfToken(token));
    assert OfToken(token)(h) == (h.token == token);
    if h.token == token {
      assert all == mine + [h];
      assert PathsOfHeld(all) == PathsOfHeld(mine) + [h.path];
      if mine == [] {
        assert PathsOfHeld(all) == [h.path];
      } else {
        assert all[0] == mine[0];
      }
    } else {
      assert all == mine;
    }
  }

  lemma {:induction false} TokensFit(s: Inner)
    requires Inv(s)
    ensures forall t: nat | ClaimFor(s.claims, t).Some? :: t <= U64_MAX
    ensures forall d | d in s.children :: d.token <= U64_MAX
    ensures forall b | b in s.bindings :: b.child <= U64_MAX && b.parent <= U64_MAX
  {
    forall t: nat | ClaimFor(s.claims, t).Some? ensures t <= U64_MAX { ClaimForCanonical(s, t); }
    ChildTokensBelow(s);
    forall b | b in s.bindings ensures b.child <= U64_MAX && b.parent <= U64_MAX { assert BindingOk(s.next, b); }
  }

  lemma {:induction false} SnocListed(listed: seq<SavedClaim>, c: SavedClaim)
    requires Pairwise(listed, DistinctSaved) && !Listed(listed, c.token)
    ensures Pairwise(listed + [c], DistinctSaved)
    ensures forall t :: Listed(listed + [c], t) <==> Listed(listed, t) || c.token == t
  {
    PairwiseSnoc(listed, c, DistinctSaved);
    forall t ensures Listed(listed + [c], t) <==> Listed(listed, t) || c.token == t { ListedSnoc(listed, c, t); }
  }

  method ListGroups(s: Inner, groups: map<nat, PathClaim>) returns (listed: seq<SavedClaim>)
    requires Inv(s)
    requires forall t :: t in groups <==> ClaimFor(s.claims, t).Some?
    requires forall t | t in groups :: ClaimFor(s.claims, t) == Some(groups[t])
    ensures Pairwise(listed, DistinctSaved) && forall c | c in listed :: IsTop(s, c) || IsSavedChild(s, c)
    ensures forall h | h in s.claims :: Listed(listed, h.token)
    ensures forall d | d in s.children :: Listed(listed, d.token)
  {
    TokensFit(s);
    listed := ListTop(s, groups);
    for n := 0 to |s.children|
      invariant Pairwise(listed, DistinctSaved) && forall c | c in listed :: IsTop(s, c) || IsSavedChild(s, c)
      invariant forall t :: Listed(listed, t) <==> t in groups || HasChild(s.children[..n], t)
    {
      var d := s.children[n];
      assert d in s.children;
      ChildNotListed(s, groups, n);
      HasChildStep(s.children, n);
      SnocListed(listed, SaveClaim(d));
      listed := listed + [SaveClaim(d)];
    }
    assert s.children[..|s.children|] == s.children;
    forall h | h in s.claims ensures Listed(listed, h.token) { ClaimForMeaning(s.claims, h.token); }
  }

  method ListTop(s: Inner, groups: map<nat, PathClaim>) returns (listed: seq<SavedClaim>)
    requires forall t | t in groups :: t <= U64_MAX && ClaimFor(s.claims, t) == Some(groups[t])
    ensures Pairwise(listed, DistinctSaved) && forall c | c in listed :: IsTop(s, c)
    ensures forall t :: Listed(listed, t) <==> t in groups
  {
    listed := [];
    var remaining := groups.Keys;
    while remaining != {}
      invariant remaining <= groups.Keys
      invariant Pairwise(listed, DistinctSaved) && forall c | c in listed :: IsTop(s, c)
      invariant forall t :: Listed(listed, t) <==> t in groups && t !in remaining
      decreases |remaining|
    {
      var t :| t in remaining;
      ClaimForMeaning(s.claims, t);
      SnocListed(listed, SaveClaim(groups[t]));
      listed := listed + [SaveClaim(groups[t])];
      remaining := remaining - {t};
    }
  }

  lemma {:induction false} HasChildStep(children: seq<PathClaim>, n: nat)
    requires n < |children|
    ensures forall t :: HasChild(children[..n + 1], t) <==> HasChild(children[..n], t) || children[n].token == t
  {
    assert children[..n + 1] == children[..n] + [children[n]];
    forall t ensures HasChild(children[..n + 1], t) <==> HasChild(children[..n], t) || children[n].token == t {
      if HasChild(children[..n], t) {
        var c :| c in children[..n] && c.token == t;
        assert c in children[..n + 1];
      }
      if children[n].token == t { assert children[n] in children[..n + 1]; }
    }
  }

  lemma {:induction false} ChildIsNew(children: seq<PathClaim>, n: nat)
    requires n < |children| && Pairwise(children, Siblings)
    ensures !HasChild(children[..n], children[n].token)
  {
    forall c | c in children[..n] ensures c.token != children[n].token {
      var i :| 0 <= i < n && children[..n][i] == c;
      assert Siblings(children[i], children[n]);
    }
  }

  lemma {:induction false} ChildNotListed(s: Inner, groups: map<nat, PathClaim>, n: nat)
    requires Inv(s) && n < |s.children| && forall t :: t in groups <==> ClaimFor(s.claims, t).Some?
    ensures s.children[n].token !in groups && !HasChild(s.children[..n], s.children[n].token)
  {
    var d := s.children[n];
    ChildIsNew(s.children, n);
    ClaimForMeaning(s.claims, d.token);
    forall h | h in s.claims ensures h.token != d.token {
      HeldIsNoScope(s, h);
      assert d in s.children;
    }
  }

  method SaveAll(s: Inner) returns (saved: seq<SavedBinding>)
    requires Inv(s)
    ensures SavesBindings(s.bindings, saved)
  {
    TokensFit(s);
    saved := [];
    for n := 0 to |s.bindings|
      invariant |saved| == n && forall i | 0 <= i < n ::
                  s.bindings[i].child <= U64_MAX && s.bindings[i].parent <= U64_MAX &&
                    saved[i] == SaveBinding(s.bindings[i])
    {
      assert s.bindings[n] in s.bindings;
      saved := saved + [SaveBinding(s.bindings[n])];
    }
  }

  /** Loads any snapshot, or refuses it; what loads is valid. */
  method FromSnapshot(snap: Snapshot, saved: seq<SavedBinding>) returns (c: SyncCoordinator?)
    ensures (c != null) <==> Load(snap, saved).Some?
    ensures c != null ==> fresh(c) && c.Valid() && c.State() == Load(snap, saved).value
  {
    var bindings: seq<Binding> := [];
    for n := 0 to |saved|
      invariant LoadBindings(snap.next, saved[..n]) == Some(bindings)
    {
      assert saved[..n + 1][..n] == saved[..n];
      var b := LoadBinding(snap.next, bindings, saved[n]);
      if b.None? {
        LoadBindingsStops(snap.next, saved, n + 1);
        return null;
      }
      bindings := bindings + [b.value];
    }
    assert saved[..|saved|] == saved;
    var top := Retain(snap.claims, TopSaved(saved));
    var held := LoadAll(top);
    if held.Err? { return null; }
    var base := Inner(NextAfter(snap.next, top), held.value, [], bindings);
    var children := Retain(snap.claims, ChildSaved(saved));
    var loaded := LoadScopes(base, children);
    if loaded.None? { return null; }
    LoadedClaimsExclude(snap, saved);
    c := new SyncCoordinator.Of(loaded.value);
  }

  lemma {:induction false} LoadBindingsStops(next: nat, saved: seq<SavedBinding>, n: nat)
    requires n <= |saved| && LoadBindings(next, saved[..n]).None?
    ensures LoadBindings(next, saved).None?
    decreases |saved| - n
  {
    if n == |saved| {
      assert saved[..n] == saved;
    } else {
      assert saved[..n + 1][..n] == saved[..n];
      LoadBindingsStops(next, saved, n + 1);
    }
  }

  method LoadAll(saved: seq<SavedClaim>) returns (r: Result<seq<Held>, SyncError>)
    ensures r == LoadClaims(saved)
  {
    var held: seq<Held> := [];
    for n := 0 to |saved|
      invariant LoadClaims(saved[..n]) == Ok(held)
    {
      assert saved[..n + 1][..n] == saved[..n];
      var next := LoadClaim(held, saved[n]);
      if next.Err? {
        LoadClaimsStops(saved, n + 1);
        return next;
      }
      held := next.value;
    }
    assert saved[..|saved|] == saved;
    return Ok(held);
  }

  lemma {:induction false} LoadClaimsStops(saved: seq<SavedClaim>, n: nat)
    requires n <= |saved| && LoadClaims(saved[..n]).Err?
    ensures LoadClaims(saved) == LoadClaims(saved[..n])
    decreases |saved| - n
  {
    if n == |saved| {
      assert saved[..n] == saved;
    } else {
      assert saved[..n + 1][..n] == saved[..n];
      LoadClaimsStops(saved, n + 1);
    }
  }

  method LoadScopes(base: Inner, saved: seq<SavedClaim>) returns (r: Option<Inner>)
    ensures r == LoadChildren(base, saved)
  {
    var s := base;
    for n := 0 to |saved|
      invariant FoldSome(LoadChild, base, saved[..n]) == Some(s)
    {
      FoldNext(LoadChild, base, saved, n);
      var next := LoadChild(s, saved[n]);
      if next.None? {
        FoldStops(LoadChild, base, saved, n + 1);
        return None;
      }
      s := next.value;
    }
    assert saved[..|saved|] == saved;
    return Some(s);
  }

  lemma {:induction false} FoldStops<S, T>(step: (S, T) -> Option<S>, start: S, ts: seq<T>, n: nat)
    requires n <= |ts| && FoldSome(step, start, ts[..n]).None?
    ensures FoldSome(step, start, ts).None?
    decreases |ts| - n
  {
    if n == |ts| {
      assert ts[..n] == ts;
    } else {
      assert ts[..n + 1][..n] == ts[..n];
      FoldStops(step, start, ts, n + 1);
    }
  }
}
