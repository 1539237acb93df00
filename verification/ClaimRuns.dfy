/** Exclusive writing over every run of the claim coordinator. */
module ClaimRuns {
  import opened Wrappers
  import opened Sequences
  import opened Ordering
  import opened ArtifactPaths
  import opened Claims
  import opened ClaimCoordinator

  // ----- Exclusive writing -----

  lemma {:induction false} CoversDown(scopes: seq<Path>, above: Path, below: Path)
    requires Covered(scopes, above) && Covers(above, below)
    ensures Covered(scopes, below) && Touches(scopes, below)
  {
    var p :| p in scopes && Covers(p, above);
    assert Covers(p, below) && Overlap(p, below);
  }

  lemma {:induction false} TouchesUp(scopes: seq<Path>, above: Path, below: Path)
    requires Covered(scopes, below) && Covers(above, below)
    ensures Touches(scopes, above)
  {
    var p :| p in scopes && Covers(p, below);
    AncestorsMeet(p, above, below);
  }

  lemma {:induction false} WritersAboveAndBelow(s: Inner, a: string, above: Path, b: string, below: Path)
    requires Inv(s) && CanWrite(s, a, above) && CanWrite(s, b, below) && Covers(above, below)
    ensures a == b
  {
    FirstTouchingMeaning(s.children, above);
    FirstTouchingMeaning(s.children, below);
    match FirstTouching(s.children, above)
    case Some(c) =>
      CoversDown(c.paths, above, below);
      CoveringChildIsAlone(s, c, FirstTouching(s.children, below).value, below);
    case None =>
      if FirstTouching(s.children, below).Some? {
        TouchesUp(FirstTouching(s.children, below).value.paths, above, below);
      }
      var h :| h in s.claims && h.agent == a && Covers(h.path, above);
      var g :| g in s.claims && g.agent == b && Covers(g.path, below);
      assert Covers(h.path, below);
      HolderIsAlone(s, h, g, below);
  }

  /** No two agents may write overlapping paths. */
  lemma {:induction false} WritersExclude(s: Inner, a: string, p: Path, b: string, q: Path)
    requires Inv(s) && CanWrite(s, a, p) && CanWrite(s, b, q) && Overlap(p, q)
    ensures a == b
  {
    if Covers(p, q) { WritersAboveAndBelow(s, a, p, b, q); } else { WritersAboveAndBelow(s, b, q, a, p); }
  }

  /** A worker's scope lies strictly below the path. */
  ghost predicate CarvedBelow(s: Inner, path: Path) {
    exists c, t | c in s.children && t in c.paths :: Covers(path, t) && t != path
  }

  lemma {:induction false} ChildPathsApart(s: Inner, c: PathClaim, p: Path, q: Path)
    requires Inv(s) && c in s.children && p in c.paths && q in c.paths
    ensures p == q || Apart(p, q)
  {
    assert Rooted(s, c);
    var b :| b in s.bindings && RootedBy(s, c, b);
    assert BindingOk(s.next, b);
    PairOf(c.paths, p, q, Apart);
  }

  lemma {:induction false} NothingCarvedBelowOwned(s: Inner, c: PathClaim, path: Path)
    requires Inv(s) && c in s.children && Covered(c.paths, path)
    ensures !CarvedBelow(s, path)
  {
    if CarvedBelow(s, path) {
      var d, t :| d in s.children && t in d.paths && Covers(path, t) && t != path;
      var p :| p in c.paths && Covers(p, path);
      assert Overlap(t, path);
      CoveringChildIsAlone(s, c, d, path);
      ChildPathsApart(s, c, p, t);
    }
  }

  /** The owner of a path may write it, unless a worker holds something strictly inside it. */
  lemma {:induction false} OwnerMayWriteIff(s: Inner, agent: string, path: Path)
    requires Inv(s)
    ensures CanWrite(s, agent, path) <==> OwnerOf(s, path) == Some(agent) && !CarvedBelow(s, path)
  {
    FirstTouchingMeaning(s.children, path);
    FirstCoveringMeaning(s.children, path);
    FirstHolderMeaning(s.claims, path);
    match FirstCovering(s.children, path)
    case Some(c) =>
      NothingCarvedBelowOwned(s, c, path);
      assert Covers(path, path);
      CoversDown(c.paths, path, path);
      CoveringChildIsAlone(s, c, FirstTouching(s.children, path).value, path);
    case None =>
      if FirstTouching(s.children, path).Some? {
        TouchedIsCarved(s, FirstTouching(s.children, path).value, path);
      } else {
        UntouchedIsNotCarved(s, path);
        HolderIsOwner(s, agent, path);
      }
  }

  lemma {:induction false} TouchedIsCarved(s: Inner, c: PathClaim, path: Path)
    requires c in s.children && Touches(c.paths, path) && !Covered(c.paths, path)
    ensures CarvedBelow(s, path)
  {
    var t :| t in c.paths && Overlap(t, path);
    assert !Covers(t, path);
  }

  lemma {:induction false} UntouchedIsNotCarved(s: Inner, path: Path)
    requires forall c | c in s.children :: !Touches(c.paths, path)
    ensures !CarvedBelow(s, path)
  {
    forall c, t | c in s.children && t in c.paths ensures !Covers(path, t) {
      assert !Overlap(t, path);
    }
  }

  lemma {:induction false} HolderIsOwner(s: Inner, agent: string, path: Path)
    requires Inv(s)
    ensures (exists h | h in s.claims :: h.agent == agent && Covers(h.path, path)) <==>
            FirstHolder(s.claims, path) == Some(agent)
  {
    FirstHolderMeaning(s.claims, path);
    if FirstHolder(s.claims, path).Some? {
      var g :| g in s.claims && g.agent == FirstHolder(s.claims, path).value && Covers(g.path, path);
      forall h | h in s.claims && Covers(h.path, path) ensures h == g {
        HolderIsAlone(s, h, g, path);
      }
    }
  }

  // ----- Every operation keeps the invariant -----

  lemma {:induction false} RootedGrows(s: Inner, t: Inner, c: PathClaim)
    requires Rooted(s, c)
    requires forall h | h in s.claims :: h in t.claims
    requires forall b | b in s.bindings :: b in t.bindings
    ensures Rooted(t, c)
  {
    var b :| b in s.bindings && RootedBy(s, c, b);
    forall p | p in c.paths ensures CoveredByToken(t.claims, b.parent, p) {
      assert CoveredByToken(s.claims, b.parent, p);
    }
    assert RootedBy(t, c, b);
  }

  lemma {:induction false} InsertMembers<T(!new)>(x: T, s: seq<T>, le: (T, T) -> bool)
    ensures forall y :: y in Insert(x, s, le) <==> y == x || y in s
  {
    var r := Insert(x, s, le);
    assert forall y :: y in r <==> y in multiset(r);
    assert forall y :: y in s <==> y in multiset(s);
  }

  lemma {:induction false} InsertAllKeeps(claims: seq<Held>, token: nat, agent: string, paths: seq<Path>)
    requires Pairwise(claims, HeldLe) && Pairwise(claims, Exclusive) && Pairwise(paths, Apart)
    requires forall h | h in claims :: h.token != token && !Touches(paths, h.path)
    ensures var r := InsertAll(claims, token, agent, paths);
      && Pairwise(r, HeldLe) && Pairwise(r, Exclusive)
      && (forall h | h in claims :: h in r)
      && (forall h | h in r :: h in claims || (h.path in paths && h.token == token && h.agent == agent))
      && (forall p | p in paths :: Held(p, token, agent) in r)
  {
    if paths != [] {
      var n := |paths| - 1;
      var init, last := paths[..n], Held(paths[n], token, agent);
      assert paths == init + [paths[n]];
      forall h | h in claims ensures !Touches(init, h.path) {
        assert forall p | p in init :: p in paths;
      }
      InsertAllKeeps(claims, token, agent, init);
      var r := InsertAll(claims, token, agent, init);
      forall h | h in r ensures Exclusive(last, h) && Exclusive(h, last) {
        if h in claims {
          assert !Overlap(paths[n], h.path);
        } else {
          var i :| 0 <= i < n && init[i] == h.path;
          assert Apart(paths[i], paths[n]);
        }
      }
      InsertAllStep(r, last);
    }
  }

  lemma {:induction false} InsertAllStep(r: seq<Held>, last: Held)
    requires Pairwise(r, HeldLe) && Pairwise(r, Exclusive)
    requires forall h | h in r :: Exclusive(last, h) && Exclusive(h, last)
    ensures Pairwise(Insert(last, r, HeldLe), HeldLe) && Pairwise(Insert(last, r, HeldLe), Exclusive)
    ensures forall y :: y in Insert(last, r, HeldLe) <==> y == last || y in r
  {
    HeldLeOrders();
    InsertSorted(last, r, HeldLe);
    InsertPairwise(last, r, HeldLe, Exclusive);
    InsertMembers(last, r, HeldLe);
  }

  lemma {:induction false} GrantKeeps(s: Inner, agent: string, paths: seq<Path>)
    requires Inv(s) && ValidAgent(agent) && Canonical(paths)
    ensures Inv(Grant(s, agent, paths).inner)
  {
    var t := Grant(s, agent, paths).inner;
    if s.next < U64_MAX {
      if !Conflicts(s.claims, paths) {
        forall h | h in s.claims ensures h.token != s.next && !Touches(paths, h.path) {
          assert HeldOk(s, h);
        }
        InsertAllKeeps(s.claims, s.next, agent, paths);
        GrantedHeldOk(s, agent, paths);
      } else {
        forall h | h in s.claims ensures HeldOk(t, h) { assert HeldOk(s, h); }
      }
      forall c | c in s.children ensures Rooted(t, c) { RootedGrows(s, t, c); }
      forall b | b in s.bindings ensures BindingOk(t.next, b) { assert BindingOk(s.next, b); }
    }
  }

  lemma {:induction false} GrantedHeldOk(s: Inner, agent: string, paths: seq<Path>)
    requires Inv(s) && ValidAgent(agent) && Canonical(paths) && s.next < U64_MAX
    requires forall h | h in InsertAll(s.claims, s.next, agent, paths) ::
               h in s.claims || (h.path in paths && h.token == s.next && h.agent == agent)
    ensures var t := s.(next := s.next + 1, claims := InsertAll(s.claims, s.next, agent, paths));
      forall h | h in t.claims :: HeldOk(t, h)
  {
    var t := s.(next := s.next + 1, claims := InsertAll(s.claims, s.next, agent, paths));
    forall h | h in t.claims ensures HeldOk(t, h) {
      if h in s.claims {
        assert HeldOk(s, h);
      } else {
        var i :| 0 <= i < |paths| && paths[i] == h.path;
        assert paths[i] != [];
        assert forall b | b in s.bindings :: BindingOk(s.next, b);
      }
    }
  }

  lemma {:induction false} ChildTokensBelow(s: Inner)
    requires Inv(s)
    ensures forall c | c in s.children :: 1 <= c.token < s.next
  {
    forall c | c in s.children ensures 1 <= c.token < s.next {
      assert Rooted(s, c);
      var b :| b in s.bindings && RootedBy(s, c, b);
      assert BindingOk(s.next, b);
    }
  }

  lemma {:induction false} ClaimKeeps(s: Inner, agent: string, raws: seq<RawPath>)
    requires Inv(s)
    ensures Inv(ClaimOp(s, agent, raws).inner)
  {
    if NormalizeAgent(agent).Some? && ClaimPaths(raws).Ok? {
      ClaimMeaning(raws);
      GrantKeeps(s, NormalizeAgent(agent).value, ClaimPaths(raws).value);
    }
  }

  lemma {:induction false} ClaimForMeaning(claims: seq<Held>, token: nat)
    ensures ClaimFor(claims, token).Some? <==> HasToken(claims, token)
    ensures ClaimFor(claims, token).Some? ==>
              var c := ClaimFor(claims, token).value;
              && c.token == token
              && (forall p :: p in c.paths <==> exists h | h in claims :: h.token == token && h.path == p)
              && exists h | h in claims :: h.token == token && h.agent == c.agent
  {
    var mine := Filter(claims, OfToken(token));
    if mine != [] {
      assert mine[0] in mine;
      var ps := PathsOfHeld(mine);
      forall p ensures p in ps <==> exists h | h in claims :: h.token == token && h.path == p {
        if p in ps {
          var i :| 0 <= i < |ps| && ps[i] == p;
          assert mine[i] in mine;
        }
        if h :| h in claims && h.token == token && h.path == p {
          assert h in mine;
          var i :| 0 <= i < |mine| && mine[i] == h;
          assert ps[i] == p;
        }
      }
    }
  }

  /** Every holder of a token is its agent. */
  lemma {:induction false} TokenHasOneAgent(s: Inner, g: Held, h: Held)
    requires Inv(s) && g in s.claims && h in s.claims && g.token == h.token
    ensures g.agent == h.agent
  {
    PairOf(s.claims, g, h, Exclusive);
  }

  /** A granted scope is rooted in its parent. */
  lemma {:induction false} ScopeIsRooted(s: Inner, parent: PathClaim, worker: string, paths: seq<Path>, t: Inner,
      c: PathClaim, b: Binding)
    requires Inv(s) && ClaimFor(s.claims, parent.token) == Some(parent) && ScopeOk(s, parent, worker, paths)
    requires t.claims == s.claims && b in t.bindings
    requires c.agent == worker && c.paths == paths
    requires b.child == c.token && b.parent == parent.token && b.worker == worker && b.paths == paths
    ensures Rooted(t, c)
  {
    ClaimForMeaning(s.claims, parent.token);
    forall p | p in paths ensures CoveredByToken(s.claims, b.parent, p) {
      assert Covered(parent.paths, p);
      var q :| q in parent.paths && Covers(q, p);
      var h :| h in s.claims && h.token == parent.token && h.path == q;
      assert Covers(h.path, p);
    }
    var q :| q in parent.paths && !Covered(paths, q);
    var h :| h in s.claims && h.token == parent.token && h.path == q;
    var g :| g in s.claims && g.token == parent.token && g.agent == parent.agent;
    TokenHasOneAgent(s, g, h);
    assert RootedBy(t, c, b);
  }

  lemma {:induction false} GrantWithinKeeps(s: Inner, parent: PathClaim, worker: string, paths: seq<Path>,
      digest: string)
    requires Inv(s) && ClaimFor(s.claims, parent.token) == Some(parent) && Canonical(paths) && ValidDigest(digest)
    ensures Inv(GrantWithin(s, parent, worker, paths, digest).inner)
  {
    var step := GrantWithin(s, parent, worker, paths, digest);
    if step.result.Ok? {
      var t, c, b := step.inner, PathClaim(s.next, worker, paths), Binding(s.next, parent.token, digest, worker, paths);
      ValidAgentIsNormal(worker);
      ScopeIsRooted(s, parent, worker, paths, t, c, b);
      NewBindingOk(s, parent, b);
      NewScopeFits(s, parent, worker, paths, c);
      PairwiseSnoc(s.bindings, b, DistinctBindings);
      ScopeKeepsMembers(s, t, c, b);
    }
  }

  lemma {:induction false} NewScopeFits(s: Inner, parent: PathClaim, worker: string, paths: seq<Path>, c: PathClaim)
    requires Inv(s) && ScopeOk(s, parent, worker, paths) && c == PathClaim(s.next, worker, paths)
    ensures Pairwise(s.children + [c], TokenLe) && Pairwise(s.children + [c], Siblings)
  {
    ChildTokensBelow(s);
    PairwiseSnoc(s.children, c, TokenLe);
    PairwiseSnoc(s.children, c, Siblings);
  }

  /** What is known of each old claim, scope and binding holds beside the new scope. */
  lemma {:induction false} ScopeKeepsMembers(s: Inner, t: Inner, c: PathClaim, b: Binding)
    requires Inv(s) && t == Inner(s.next + 1, s.claims, s.children + [c], s.bindings + [b])
    requires b.child == s.next < U64_MAX
    requires Rooted(t, c) && BindingOk(t.next, b)
    ensures forall d | d in t.children :: Rooted(t, d)
    ensures forall h | h in t.claims :: HeldOk(t, h)
    ensures forall e | e in t.bindings :: BindingOk(t.next, e)
  {
    forall d | d in t.children ensures Rooted(t, d) {
      if d in s.children { RootedGrows(s, t, d); }
    }
    forall h | h in s.claims ensures HeldOk(t, h) { assert HeldOk(s, h); }
    forall e | e in t.bindings ensures BindingOk(t.next, e) {
      if e in s.bindings { assert BindingOk(s.next, e); }
    }
  }

  lemma {:induction false} NewBindingOk(s: Inner, parent: PathClaim, b: Binding)
    requires Inv(s) && s.next < U64_MAX && ClaimFor(s.claims, parent.token) == Some(parent)
    requires b.child == s.next && b.parent == parent.token && ValidAgent(b.worker) && ValidDigest(b.digest)
    requires Canonical(b.paths)
    requires !Replayed(s.bindings, b.parent, b.digest, b.worker)
    ensures BindingOk(s.next + 1, b) && forall e | e in s.bindings :: DistinctBindings(e, b)
  {
    ClaimForMeaning(s.claims, parent.token);
    var h :| h in s.claims && h.token == parent.token;
    assert HeldOk(s, h);
    forall e | e in s.bindings ensures DistinctBindings(e, b) { assert BindingOk(s.next, e); }
  }

  lemma {:induction false} SubordinateKeeps(s: Inner, parent: PathClaim, worker: string, raws: seq<RawPath>,
      digest: string)
    requires Inv(s)
    ensures Inv(SubordinateOp(s, parent, worker, raws, digest).inner)
  {
    ClaimMeaning(raws);
    if ClaimFor(s.claims, parent.token) == Some(parent) && ClaimPaths(raws).Ok? && ValidDigest(digest) {
      GrantWithinKeeps(s, parent, worker, ClaimPaths(raws).value, digest);
    }
  }

  /** Dropping claims keeps the invariant as long as every remaining scope keeps its parent's paths. */
  lemma {:induction false} DropKeeps(s: Inner, keepHeld: Held -> bool, keepChild: PathClaim -> bool)
    requires Inv(s)
    requires forall c, b, h | c in s.children && keepChild(c) && b in s.bindings && RootedBy(s, c, b) &&
             h in s.claims ::
               h.token == b.parent ==> keepHeld(h)
    ensures Inv(s.(claims := Filter(s.claims, keepHeld), children := Filter(s.children, keepChild)))
  {
    var t := s.(claims := Filter(s.claims, keepHeld), children := Filter(s.children, keepChild));
    FilterPairwise(s.claims, keepHeld, HeldLe);
    FilterPairwise(s.claims, keepHeld, Exclusive);
    FilterPairwise(s.children, keepChild, TokenLe);
    FilterPairwise(s.children, keepChild, Siblings);
    forall c | c in t.children ensures Rooted(t, c) {
      assert Rooted(s, c);
      var b :| b in s.bindings && RootedBy(s, c, b);
      assert forall h | h in s.claims && h.token == b.parent :: h in t.claims;
      forall p | p in c.paths ensures CoveredByToken(t.claims, b.parent, p) {
        assert CoveredByToken(s.claims, b.parent, p);
      }
      assert RootedBy(t, c, b);
    }
    forall h | h in t.claims ensures HeldOk(t, h) { assert HeldOk(s, h); }
  }

  lemma {:induction false} ReleaseKeeps(s: Inner, token: nat)
    requires Inv(s)
    ensures Inv(ReleaseOp(s, token).inner)
  {
    if !HasActiveChild(s, token) {
      if Child(s.children, token).Some? {
        var all := (h: Held) => true;
        FilterAll(s.claims, all);
        DropKeeps(s, all, OtherChild(token));
      } else {
        var all := (c: PathClaim) => true;
        FilterAll(s.children, all);
        forall c, b, h | c in s.children && b in s.bindings && RootedBy(s, c, b) && h in s.claims && h.token == b.parent
          ensures OtherToken(token)(h)
        {
          assert HasChild(s.children, b.child);
        }
        DropKeeps(s, OtherToken(token), all);
      }
    }
  }

  lemma {:induction false} ReleaseAgentKeeps(s: Inner, agent: string)
    requires Inv(s)
    ensures Inv(ReleaseAgentOp(s, agent).inner)
  {
    if ReleaseAgentOp(s, agent).result.Ok? {
      var a := NormalizeAgent(agent).value;
      forall c, b, h | c in s.children && b in s.bindings && RootedBy(s, c, b) && h in s.claims && h.token == b.parent
        ensures OtherAgent(a)(h)
      {
        assert HasChild(s.children, b.child);
        assert HasActiveChild(s, h.token);
      }
      DropKeeps(s, OtherAgent(a), OtherWorker(a));
    }
  }

  // ----- Runs -----

  datatype Op =
    | ClaimPathsOf(agent: string, raws: seq<RawPath>)
    | ClaimWithin(parent: PathClaim, worker: string, raws: seq<RawPath>, digest: string)
    | Release(token: nat)
    | ReleaseAgent(agent: string)

  function Apply(s: Inner, op: Op): Inner {
    match op
    case ClaimPathsOf(agent, raws) => ClaimOp(s, agent, raws).inner
    case ClaimWithin(parent, worker, raws, digest) => SubordinateOp(s, parent, worker, raws, digest).inner
    case Release(token) => ReleaseOp(s, token).inner
    case ReleaseAgent(agent) => ReleaseAgentOp(s, agent).inner
  }

  function After(s: Inner, ops: seq<Op>): Inner {
    if ops == [] then s else Apply(After(s, ops[..|ops| - 1]), ops[|ops| - 1])
  }

  lemma {:induction false} RunKeepsInv(s: Inner, ops: seq<Op>)
    requires Inv(s)
    ensures Inv(After(s, ops))
  {
    if ops != [] {
      var t := After(s, ops[..|ops| - 1]);
      RunKeepsInv(s, ops[..|ops| - 1]);
      match ops[|ops| - 1]
      case ClaimPathsOf(agent, raws) => ClaimKeeps(t, agent, raws);
      case ClaimWithin(parent, worker, raws, digest) => SubordinateKeeps(t, parent, worker, raws, digest);
      case Release(token) => ReleaseKeeps(t, token);
      case ReleaseAgent(agent) => ReleaseAgentKeeps(t, agent);
    }
  }

  /** After any run at all, the agents allowed to write two overlapping paths are one agent. */
  lemma {:induction false} ClaimsExcludeAlways(ops: seq<Op>, a: string, p: Path, b: string, q: Path)
    requires CanWrite(After(Empty, ops), a, p) && CanWrite(After(Empty, ops), b, q) && Overlap(p, q)
    ensures a == b
  {
    RunKeepsInv(Empty, ops);
    WritersExclude(After(Empty, ops), a, p, b, q);
  }

  lemma {:induction false} ApplyGrows(s: Inner, op: Op)
    ensures s.next <= Apply(s, op).next && forall b | b in s.bindings :: b in Apply(s, op).bindings
  {
  }

  lemma {:induction false} BindingsAndTokensGrow(s: Inner, ops: seq<Op>)
    ensures s.next <= After(s, ops).next && forall b | b in s.bindings :: b in After(s, ops).bindings
  {
    if ops != [] {
      BindingsAndTokensGrow(s, ops[..|ops| - 1]);
      ApplyGrows(After(s, ops[..|ops| - 1]), ops[|ops| - 1]);
    }
  }

  /** A granted reservation is spent for good, whatever is released afterwards. */
  lemma {:induction false} ReservationIsSpent(s: Inner, parent: PathClaim, worker: string, raws: seq<RawPath>,
      digest: string, ops: seq<Op>, again: PathClaim, others: seq<RawPath>)
    requires SubordinateOp(s, parent, worker, raws, digest).result.Ok? && again.token == parent.token
    ensures var t := After(SubordinateOp(s, parent, worker, raws, digest).inner, ops);
      SubordinateOp(t, again, worker, others, digest).result.Err?
  {
    var t := SubordinateOp(s, parent, worker, raws, digest).inner;
    var b := Binding(s.next, parent.token, digest, worker, ClaimPaths(raws).value);
    assert b in t.bindings;
    BindingsAndTokensGrow(t, ops);
    assert Replayed(After(t, ops).bindings, again.token, digest, worker);
  }

  /** The token an operation grants, for a claim or for a scope. */
  function Granted(s: Inner, op: Op): Option<nat> {
    match op
    case ClaimPathsOf(agent, raws) =>
      var r := ClaimOp(s, agent, raws).result; if r.Ok? then Some(r.value.token) else None
    case ClaimWithin(parent, worker, raws, digest) =>
      var r := SubordinateOp(s, parent, worker, raws, digest).result; if r.Ok? then Some(r.value.token) else None
    case _ => None
  }

  lemma {:induction false} GrantTakesNext(s: Inner, op: Op)
    requires Granted(s, op).Some?
    ensures Granted(s, op) == Some(s.next) && Apply(s, op).next == s.next + 1
  {
  }

  /** A granted token, of a claim or a scope, is below every one granted after it. */
  lemma {:induction false} TokensAreFresh(s: Inner, op: Op, ops: seq<Op>, later: Op)
    requires Granted(s, op).Some? && Granted(After(Apply(s, op), ops), later).Some?
    ensures Granted(s, op).value < Granted(After(Apply(s, op), ops), later).value
  {
    GrantTakesNext(s, op);
    BindingsAndTokensGrow(Apply(s, op), ops);
    GrantTakesNext(After(Apply(s, op), ops), later);
  }

  ghost predicate Leaves(op: Op, h: Held) {
    match op
    case Release(token) => token != h.token
    case ReleaseAgent(agent) => NormalizeAgent(agent) != Some(h.agent)
    case _ => true
  }

  lemma {:induction false} InsertAllContains(claims: seq<Held>, token: nat, agent: string, paths: seq<Path>, h: Held)
    requires h in claims
    ensures h in InsertAll(claims, token, agent, paths)
  {
    if paths != [] {
      var n := |paths| - 1;
      InsertAllContains(claims, token, agent, paths[..n], h);
      InsertMembers(Held(paths[n], token, agent), InsertAll(claims, token, agent, paths[..n]), HeldLe);
    }
  }

  /** A claimed path stays claimed until its own token or agent is released. */
  lemma {:induction false} ClaimsPersist(s: Inner, h: Held, ops: seq<Op>)
    requires h in s.claims && forall i | 0 <= i < |ops| :: Leaves(ops[i], h)
    ensures h in After(s, ops).claims
  {
    if ops != [] {
      var n := |ops| - 1;
      ClaimsPersist(s, h, ops[..n]);
      assert Leaves(ops[n], h);
      ApplyLeaves(After(s, ops[..n]), h, ops[n]);
    }
  }

  lemma {:induction false} ApplyLeaves(s: Inner, h: Held, op: Op)
    requires h in s.claims && Leaves(op, h)
    ensures h in Apply(s, op).claims
  {
    if op.ClaimPathsOf? && ClaimOp(s, op.agent, op.raws).result.Ok? {
      InsertAllContains(s.claims, s.next, NormalizeAgent(op.agent).value, ClaimPaths(op.raws).value, h);
    }
  }

  // ----- What granting and releasing mean for writing -----

  /** Below two paths that are apart there is nothing in common. */
  lemma {:induction false} ApartBelow(a: Path, b: Path, p: Path, q: Path)
    requires Apart(a, b) && Covers(a, p) && Covers(b, q)
    ensures !Overlap(p, q)
  {
    if Covers(p, q) {
      AncestorsMeet(a, b, q);
    } else if Covers(q, p) {
      AncestorsMeet(a, b, p);
    }
  }

  /** A scope only touches paths its parent's claim overlaps. */
  lemma {:induction false} ScopeTouchesNothingElse(s: Inner, c: PathClaim, h: Held, path: Path)
    requires Inv(s) && c in s.children && h in s.claims && Covers(h.path, path) && Touches(c.paths, path)
    ensures exists b | b in s.bindings :: RootedBy(s, c, b) && b.parent == h.token
  {
    assert Rooted(s, c);
    var b :| b in s.bindings && RootedBy(s, c, b);
    var q :| q in c.paths && Overlap(q, path);
    assert CoveredByToken(s.claims, b.parent, q);
    var g :| g in s.claims && g.token == b.parent && Covers(g.path, q);
    PairOf(s.claims, g, h, Exclusive);
    if Apart(g.path, h.path) {
      ApartBelow(g.path, h.path, q, path);
    } else if Apart(h.path, g.path) {
      ApartBelow(h.path, g.path, path, q);
    }
  }

  /** A holder may write below its claimed path wherever no worker's scope reaches. */
  lemma {:induction false} HolderMayWrite(s: Inner, h: Held, path: Path)
    requires Inv(s) && h in s.claims && Covers(h.path, path)
    requires forall c | c in s.children :: !Touches(c.paths, path)
    ensures CanWrite(s, h.agent, path)
  {
    FirstTouchingMeaning(s.children, path);
  }

  /** A granted claim lets its agent write everything it covers, at once. */
  lemma {:induction false} ClaimGrantsWriting(s: Inner, agent: string, paths: seq<Path>, path: Path)
    requires Inv(s) && ValidAgent(agent) && Canonical(paths) && Grant(s, agent, paths).result.Ok?
    requires Covered(paths, path)
    ensures CanWrite(Grant(s, agent, paths).inner, agent, path)
  {
    var t := Grant(s, agent, paths).inner;
    GrantKeeps(s, agent, paths);
    forall h | h in s.claims ensures h.token != s.next && !Touches(paths, h.path) { assert HeldOk(s, h); }
    InsertAllKeeps(s.claims, s.next, agent, paths);
    var p :| p in paths && Covers(p, path);
    var h := Held(p, s.next, agent);
    forall b | b in s.bindings ensures b.parent != s.next { assert BindingOk(s.next, b); }
    forall c | c in t.children ensures !Touches(c.paths, path) {
      if Touches(c.paths, path) { ScopeTouchesNothingElse(t, c, h, path); }
    }
    HolderMayWrite(t, h, path);
  }

  /** A granted scope lets its worker write everything it covers, and so nobody else. */
  lemma {:induction false} ScopeGrantsWriting(s: Inner, parent: PathClaim, worker: string, paths: seq<Path>,
      digest: string, path: Path)
    requires Inv(s) && ClaimFor(s.claims, parent.token) == Some(parent) && Canonical(paths) && ValidDigest(digest)
    requires GrantWithin(s, parent, worker, paths, digest).result.Ok? && Covered(paths, path)
    ensures CanWrite(GrantWithin(s, parent, worker, paths, digest).inner, worker, path)
  {
    var t := GrantWithin(s, parent, worker, paths, digest).inner;
    var c := PathClaim(s.next, worker, paths);
    GrantWithinKeeps(s, parent, worker, paths, digest);
    assert c in t.children;
    assert Covers(path, path);
    CoversDown(paths, path, path);
    FirstTouchingMeaning(t.children, path);
    CoveringChildIsAlone(t, c, FirstTouching(t.children, path).value, path);
  }

  lemma {:induction false} ChildMeaning(children: seq<PathClaim>, token: nat)
    ensures var c := Child(children, token);
      && (c.Some? ==> c.value in children && c.value.token == token)
      && (c.None? ==> forall d | d in children :: d.token != token)
  {
    if children != [] { ChildMeaning(children[1..], token); }
  }

  /** A released claim is free: nobody may write what it covered. */
  lemma {:induction false} ReleasedPathsAreFree(s: Inner, token: nat, agent: string, path: Path)
    requires Inv(s) && ReleaseOp(s, token).result.Ok? && Child(s.children, token).None?
    requires Covered(ReleaseOp(s, token).result.value.paths, path)
    ensures !CanWrite(ReleaseOp(s, token).inner, agent, path)
  {
    var t := ReleaseOp(s, token).inner;
    ReleaseKeeps(s, token);
    ClaimForMeaning(s.claims, token);
    var p :| p in ReleaseOp(s, token).result.value.paths && Covers(p, path);
    var g :| g in s.claims && g.token == token && g.path == p;
    forall h | h in t.claims ensures !Covers(h.path, path) {
      if Covers(h.path, path) { HolderIsAlone(s, g, h, path); }
    }
    FirstTouchingMeaning(t.children, path);
    if FirstTouching(t.children, path).Some? && Covered(FirstTouching(t.children, path).value.paths, path) {
      ScopeIsHeld(t, FirstTouching(t.children, path).value, path);
    }
  }

  lemma {:induction false} ScopeIsHeld(s: Inner, c: PathClaim, path: Path)
    requires Inv(s) && c in s.children && Covered(c.paths, path)
    ensures exists h | h in s.claims :: Covers(h.path, path)
  {
    assert Rooted(s, c);
    var b :| b in s.bindings && RootedBy(s, c, b);
    var q :| q in c.paths && Covers(q, path);
    assert CoveredByToken(s.claims, b.parent, q);
    var h :| h in s.claims && h.token == b.parent && Covers(h.path, q);
    assert Covers(h.path, path);
  }

  /** A released scope falls back to the agent whose claim it was cut from. */
  lemma {:induction false} ReleasedScopeReturns(s: Inner, c: PathClaim, path: Path)
    requires Inv(s) && c in s.children && ReleaseOp(s, c.token).result.Ok? && Covered(c.paths, path)
    ensures exists h | h in s.claims :: Covers(h.path, path) && CanWrite(ReleaseOp(s, c.token).inner, h.agent, path)
  {
    var t := ReleaseOp(s, c.token).inner;
    ReleaseKeeps(s, c.token);
    ChildMeaning(s.children, c.token);
    ScopeIsHeld(s, c, path);
    var h :| h in s.claims && Covers(h.path, path);
    forall d | d in t.children ensures !Touches(d.paths, path) {
      if Touches(d.paths, path) { CoveringChildIsAlone(s, c, d, path); }
    }
    HolderMayWrite(t, h, path);
  }
}
