/** Persisting the claim coordinator and loading it again. */
module ClaimSnapshots {
  import opened Wrappers
  import opened Sequences
  import opened Ordering
  import opened ArtifactPaths
  import opened Claims
  import opened ClaimCoordinator
  import opened ClaimRuns

  type U64 = x: int | 0 <= x <= U64_MAX

  /** Persisted claims and bindings, before any check. */
  datatype SavedClaim = SavedClaim(token: U64, agent: string, raws: seq<RawPath>)

  datatype SavedBinding = SavedBinding(child: U64, parent: U64, digest: string, worker: string, raws: seq<RawPath>)

  datatype Snapshot = Snapshot(next: U64, claims: seq<SavedClaim>)

  // ----- Loading -----

  /** Paths that are already in the form claims are held in. */
  function AlreadyCanonical(raws: seq<RawPath>): Option<seq<Path>> {
    if ClaimPaths(raws).Ok? && AsRaws(ClaimPaths(raws).value) == raws then Some(ClaimPaths(raws).value) else None
  }

  function LoadBinding(next: nat, loaded: seq<Binding>, b: SavedBinding): Option<Binding> {
    if b.child == 0 || b.parent == 0 || b.child == b.parent || b.child >= next || b.parent >= next then None
    else if exists e | e in loaded ::
      e.child == b.child || (e.parent == b.parent && e.digest == b.digest && e.worker == b.worker) then None
    else if NormalizeAgent(b.worker) != Some(b.worker) || AlreadyCanonical(b.raws).None? || !ValidDigest(b.digest) then
      None
    else Some(Binding(b.child, b.parent, b.digest, b.worker, AlreadyCanonical(b.raws).value))
  }

  function LoadBindings(next: nat, saved: seq<SavedBinding>): Option<seq<Binding>> {
    if saved == [] then Some([])
    else
      var n := |saved| - 1;
      var loaded := LoadBindings(next, saved[..n]);
      if loaded.None? then None
      else
        var b := LoadBinding(next, loaded.value, saved[n]);
        if b.None? then None else Some(loaded.value + [b.value])
  }

  function LoadClaim(held: seq<Held>, c: SavedClaim): Result<seq<Held>, SyncError> {
    if c.token == 0 then Err(InvalidToken)
    else if HasToken(held, c.token) then Err(DuplicateToken)
    else if NormalizeAgent(c.agent).None? then Err(BadAgent)
    else if ClaimPaths(c.raws).Err? then Err(BadPaths(ClaimPaths(c.raws).error))
    else if Conflicts(held, ClaimPaths(c.raws).value) then Err(Conflict)
    else Ok(InsertAll(held, c.token, NormalizeAgent(c.agent).value, ClaimPaths(c.raws).value))
  }

  function LoadClaims(saved: seq<SavedClaim>): Result<seq<Held>, SyncError> {
    if saved == [] then Ok([])
    else
      var n := |saved| - 1;
      match LoadClaims(saved[..n])
      case Err(e) => Err(e)
      case Ok(held) => LoadClaim(held, saved[n])
  }

  function MaxToken(saved: seq<SavedClaim>): nat {
    if saved == [] then 0
    else
      var n := |saved| - 1;
      Max(MaxToken(saved[..n]), saved[n].token)
  }

  function NextAfter(next: nat, saved: seq<SavedClaim>): nat {
    var above := if MaxToken(saved) < U64_MAX then MaxToken(saved) + 1 else U64_MAX;
    Max(Max(next, above), 1)
  }

  function FindBinding(bindings: seq<Binding>, child: nat): Option<Binding> {
    if bindings == [] then None
    else if bindings[0].child == child then Some(bindings[0])
    else FindBinding(bindings[1..], child)
  }

  function LoadChild(s: Inner, c: SavedClaim): Option<Inner> {
    var b := FindBinding(s.bindings, c.token);
    var paths := AlreadyCanonical(c.raws);
    if b.None? || ClaimFor(s.claims, b.value.parent).None? || paths.None? then None
    else if !ScopeOk(s, ClaimFor(s.claims, b.value.parent).value, c.agent, paths.value) then None
    else if c.agent != b.value.worker || paths.value != b.value.paths || HasChild(s.children, c.token) then None
    else Some(s.(children := Insert(PathClaim(c.token, c.agent, paths.value), s.children, TokenLe)))
  }

  function LoadChildren(s: Inner, saved: seq<SavedClaim>): Option<Inner> {
    FoldSome(LoadChild, s, saved)
  }

  predicate IsChild(saved: seq<SavedBinding>, token: nat) {
    exists b | b in saved :: b.child == token
  }

  function ChildSaved(saved: seq<SavedBinding>): SavedClaim -> bool {
    (c: SavedClaim) => IsChild(saved, c.token)
  }

  function TopSaved(saved: seq<SavedBinding>): SavedClaim -> bool {
    (c: SavedClaim) => !IsChild(saved, c.token)
  }

  function Load(snap: Snapshot, saved: seq<SavedBinding>): Option<Inner> {
    var bindings := LoadBindings(snap.next, saved);
    var top := Filter(snap.claims, TopSaved(saved));
    if bindings.None? || LoadClaims(top).Err? then None
    else
      var base := Inner(NextAfter(snap.next, top), LoadClaims(top).value, [], bindings.value);
      LoadChildren(base, Filter(snap.claims, ChildSaved(saved)))
  }

  // ----- Whatever loads is exclusive -----

  lemma {:induction false} AlreadyCanonicalMeaning(raws: seq<RawPath>)
    ensures AlreadyCanonical(raws).Some? ==>
            Canonical(AlreadyCanonical(raws).value) && AsRaws(AlreadyCanonical(raws).value) == raws
  {
    ClaimMeaning(raws);
  }

  lemma {:induction false} LoadBindingsOk(next: nat, saved: seq<SavedBinding>)
    requires LoadBindings(next, saved).Some?
    ensures var bs := LoadBindings(next, saved).value;
      && Pairwise(bs, DistinctBindings) && (forall b | b in bs :: BindingOk(next, b))
      && (forall b | b in bs :: IsChild(saved, b.child))
  {
    if saved != [] {
      var n := |saved| - 1;
      LoadBindingsOk(next, saved[..n]);
      AlreadyCanonicalMeaning(saved[n].raws);
      ValidAgentIsNormal(saved[n].worker);
      var init := LoadBindings(next, saved[..n]).value;
      var b := LoadBinding(next, init, saved[n]).value;
      PairwiseSnoc(init, b, DistinctBindings);
      assert saved[n] in saved;
      forall e | e in init ensures IsChild(saved, e.child) {
        var d :| d in saved[..n] && d.child == e.child;
        assert d in saved;
      }
    }
  }

  ghost predicate Loaded(saved: seq<SavedClaim>, held: seq<Held>) {
    && Pairwise(held, HeldLe) && Pairwise(held, Exclusive)
    && forall h | h in held ::
         h.path != [] && ValidAgent(h.agent) && 1 <= h.token <= MaxToken(saved) && Listed(saved, h.token)
  }

  predicate Listed(saved: seq<SavedClaim>, token: nat) {
    exists c | c in saved :: c.token == token
  }

  lemma {:induction false} LoadClaimsOk(saved: seq<SavedClaim>)
    requires LoadClaims(saved).Ok?
    ensures Loaded(saved, LoadClaims(saved).value)
  {
    if saved != [] {
      var n := |saved| - 1;
      LoadClaimsOk(saved[..n]);
      LoadClaimOk(saved, n, LoadClaims(saved[..n]).value);
    }
  }

  lemma {:induction false} LoadClaimOk(saved: seq<SavedClaim>, n: nat, held: seq<Held>)
    requires n + 1 == |saved| && Loaded(saved[..n], held) && LoadClaim(held, saved[n]).Ok?
    ensures Loaded(saved, LoadClaim(held, saved[n]).value)
  {
    var c := saved[n];
    var agent, paths := NormalizeAgent(c.agent).value, ClaimPaths(c.raws).value;
    ClaimMeaning(c.raws);
    InsertAllKeeps(held, c.token, agent, paths);
    assert c in saved;
    forall h | h in InsertAll(held, c.token, agent, paths)
      ensures h.path != [] && ValidAgent(h.agent) && 1 <= h.token <= MaxToken(saved) && Listed(saved, h.token)
    {
      if h in held {
        var d :| d in saved[..n] && d.token == h.token;
        assert d in saved;
      } else {
        var i :| 0 <= i < |paths| && paths[i] == h.path;
        assert paths[i] != [];
      }
    }
  }

  lemma {:induction false} FindBindingMeaning(bindings: seq<Binding>, child: nat)
    ensures var f := FindBinding(bindings, child);
      && (f.Some? ==> f.value in bindings && f.value.child == child)
      && (f.None? ==> forall b | b in bindings :: b.child != child)
  {
    if bindings != [] { FindBindingMeaning(bindings[1..], child); }
  }

  lemma {:induction false} DisjointSymmetric(a: seq<Path>, b: seq<Path>)
    requires Disjoint(a, b)
    ensures Disjoint(b, a)
  {
    forall p | p in a ensures !Touches(b, p) {
      forall q | q in b ensures !Overlap(q, p) {
        assert !Touches(a, q);
        assert !Overlap(p, q);
      }
    }
  }

  lemma {:induction false} TokenLeOrders()
    ensures TotalPreorder(TokenLe)
  {
  }

  lemma {:induction false} InsertChildKeeps(children: seq<PathClaim>, c: PathClaim)
    requires Pairwise(children, TokenLe) && Pairwise(children, Siblings)
    requires forall d | d in children :: Siblings(d, c)
    ensures var r := Insert(c, children, TokenLe);
      && Pairwise(r, TokenLe) && Pairwise(r, Siblings) && forall d :: d in r <==> d == c || d in children
  {
    TokenLeOrders();
    InsertSorted(c, children, TokenLe);
    forall d | d in children ensures Siblings(c, d) { DisjointSymmetric(d.paths, c.paths); }
    InsertPairwise(c, children, TokenLe, Siblings);
    InsertMembers(c, children, TokenLe);
  }

  lemma {:induction false} LoadChildKeeps(s: Inner, c: SavedClaim)
    requires Inv(s) && LoadChild(s, c).Some? && !HasToken(s.claims, c.token)
    ensures Inv(LoadChild(s, c).value) && LoadChild(s, c).value.claims == s.claims
  {
    var t := LoadChild(s, c).value;
    var b, paths := FindBinding(s.bindings, c.token).value, AlreadyCanonical(c.raws).value;
    var parent, child := ClaimFor(s.claims, b.parent).value, PathClaim(c.token, c.agent, paths);
    FindBindingMeaning(s.bindings, c.token);
    ClaimForMeaning(s.claims, b.parent);
    ScopeIsRooted(s, parent, c.agent, paths, t, child, b);
    InsertChildKeeps(s.children, child);
    forall d | d in t.children ensures Rooted(t, d) {
      if d in s.children { RootedGrows(s, t, d); }
    }
    forall h | h in t.claims ensures HeldOk(t, h) { assert HeldOk(s, h); }
  }

  lemma {:induction false} LoadChildrenKeeps(s: Inner, saved: seq<SavedClaim>)
    requires Inv(s) && forall c | c in saved :: !HasToken(s.claims, c.token)
    ensures LoadChildren(s, saved).Some? ==> Inv(LoadChildren(s, saved).value)
  {
    var inv := (t: Inner) => Inv(t) && t.claims == s.claims;
    var ok := (c: SavedClaim) => !HasToken(s.claims, c.token);
    forall t: Inner, c: SavedClaim | inv(t) && ok(c) && LoadChild(t, c).Some? ensures inv(LoadChild(t, c).value) {
      LoadChildKeeps(t, c);
    }
    FoldKeeps(LoadChild, s, saved, inv, ok);
  }

  /** Any snapshot that loads, however it was produced, gives a coordinator whose claims exclude each other. */
  lemma {:induction false} LoadedClaimsExclude(snap: Snapshot, saved: seq<SavedBinding>)
    requires Load(snap, saved).Some?
    ensures Inv(Load(snap, saved).value)
  {
    var top := Filter(snap.claims, TopSaved(saved));
    var held := LoadClaims(top).value;
    var base := Inner(NextAfter(snap.next, top), held, [], LoadBindings(snap.next, saved).value);
    LoadBindingsOk(snap.next, saved);
    LoadClaimsOk(top);
    MaxTokenFits(top);
    forall b | b in base.bindings ensures BindingOk(base.next, b) { assert BindingOk(snap.next, b); }
    forall h | h in held ensures HeldOk(base, h) { assert Listed(top, h.token); }
    var children := Filter(snap.claims, ChildSaved(saved));
    forall c | c in children ensures !HasToken(held, c.token) {
      forall h | h in held ensures h.token != c.token {
        assert Listed(top, h.token);
      }
    }
    LoadChildrenKeeps(base, children);
  }

  lemma {:induction false} MaxTokenFits(saved: seq<SavedClaim>)
    ensures MaxToken(saved) <= U64_MAX
  {
    if saved != [] { MaxTokenFits(saved[..|saved| - 1]); }
  }

  // ----- Saving -----

  function SaveClaim(c: PathClaim): SavedClaim
    requires c.token <= U64_MAX
  {
    SavedClaim(c.token, c.agent, AsRaws(c.paths))
  }

  function SaveBinding(b: Binding): SavedBinding
    requires b.child <= U64_MAX && b.parent <= U64_MAX
  {
    SavedBinding(b.child, b.parent, b.digest, b.worker, AsRaws(b.paths))
  }

  predicate DistinctSaved(a: SavedClaim, b: SavedClaim) {
    a.token != b.token
  }

  ghost predicate IsTop(s: Inner, c: SavedClaim) {
    ClaimFor(s.claims, c.token).Some? && c == SaveClaim(ClaimFor(s.claims, c.token).value)
  }

  ghost predicate IsSavedChild(s: Inner, c: SavedClaim) {
    exists d | d in s.children :: d.token <= U64_MAX && c == SaveClaim(d)
  }

  ghost predicate SavesBindings(bindings: seq<Binding>, saved: seq<SavedBinding>) {
    |saved| == |bindings| && forall i | 0 <= i < |saved| ::
      bindings[i].child <= U64_MAX && bindings[i].parent <= U64_MAX && saved[i] == SaveBinding(bindings[i])
  }

  /** A snapshot lists every token's claim and every worker's scope once, in any order. */
  ghost predicate Saves(s: Inner, snap: Snapshot, saved: seq<SavedBinding>) {
    && snap.next == s.next && SavesBindings(s.bindings, saved)
    && Pairwise(snap.claims, DistinctSaved)
    && (forall c | c in snap.claims :: IsTop(s, c) || IsSavedChild(s, c))
    && (forall h | h in s.claims :: Listed(snap.claims, h.token))
    && (forall d | d in s.children :: Listed(snap.claims, d.token))
  }

  /** No worker with an active scope also holds a claim of its own. */
  ghost predicate WorkersHoldNoClaims(s: Inner) {
    forall d, h | d in s.children && h in s.claims :: h.agent != d.agent
  }

  lemma {:induction false} CanonicalStays(paths: seq<Path>)
    requires Canonical(paths)
    ensures ClaimPaths(AsRaws(paths)) == Ok(paths) && AlreadyCanonical(AsRaws(paths)) == Some(paths)
  {
    CanonicalIff(paths);
  }

  lemma {:induction false} BindingLoads(next: nat, loaded: seq<Binding>, b: Binding)
    requires BindingOk(next, b) && b.child <= U64_MAX && b.parent <= U64_MAX
    requires forall e | e in loaded :: DistinctBindings(e, b)
    ensures LoadBinding(next, loaded, SaveBinding(b)) == Some(b)
  {
    CanonicalStays(b.paths);
    ValidAgentIsNormal(b.worker);
  }

  lemma {:induction false} BindingsRoundTrip(next: nat, bindings: seq<Binding>, saved: seq<SavedBinding>)
    requires SavesBindings(bindings, saved) && Pairwise(bindings, DistinctBindings)
    requires forall b | b in bindings :: BindingOk(next, b)
    ensures LoadBindings(next, saved) == Some(bindings)
  {
    if saved != [] {
      var n := |saved| - 1;
      assert bindings == bindings[..n] + [bindings[n]];
      BindingsRoundTrip(next, bindings[..n], saved[..n]);
      forall e | e in bindings[..n] ensures DistinctBindings(e, bindings[n]) {
        var i :| 0 <= i < n && bindings[..n][i] == e;
        assert DistinctBindings(bindings[i], bindings[n]);
      }
      assert BindingOk(next, bindings[n]);
      BindingLoads(next, bindings[..n], bindings[n]);
    }
  }

  // ----- The claims come back -----

  predicate HeldLt(a: Held, b: Held) {
    PathLt(a.path, b.path)
  }

  lemma {:induction false} HeldStrict(claims: seq<Held>)
    requires Pairwise(claims, HeldLe) && Pairwise(claims, Exclusive)
    ensures Pairwise(claims, HeldLt)
  {
    forall i, j | 0 <= i < j < |claims| ensures HeldLt(claims[i], claims[j]) {
      assert HeldLe(claims[i], claims[j]) && Exclusive(claims[i], claims[j]);
    }
  }

  lemma {:induction false} SameHeldSameClaims(a: seq<Held>, b: seq<Held>)
    requires Pairwise(a, HeldLe) && Pairwise(a, Exclusive) && Pairwise(b, HeldLe) && Pairwise(b, Exclusive)
    requires forall h :: h in a <==> h in b
    ensures a == b
  {
    HeldStrict(a);
    HeldStrict(b);
    forall x, y | x in a && y in a && HeldLt(x, y) ensures !HeldLt(y, x) && x != y {
      PathLeTotal(x.path, y.path);
    }
    StrictUnique(a, b, HeldLt);
  }

  /** A token's claim is in the form claims are held in, and is all its agent's. */
  lemma {:induction false} ClaimForCanonical(s: Inner, token: nat)
    requires Inv(s) && ClaimFor(s.claims, token).Some?
    ensures var c := ClaimFor(s.claims, token).value;
      && c.token == token && Canonical(c.paths) && ValidAgent(c.agent) && Issued(s.next, token)
      && forall h :: (h in s.claims && h.token == token) <==>
        (h.path in c.paths && h.token == token && h.agent == c.agent)
  {
    var mine := Filter(s.claims, OfToken(token));
    var c := ClaimFor(s.claims, token).value;
    FilterPairwise(s.claims, OfToken(token), HeldLe);
    FilterPairwise(s.claims, OfToken(token), Exclusive);
    HeldStrict(mine);
    forall i, j | 0 <= i < j < |mine| ensures PathLt(c.paths[i], c.paths[j]) && Apart(c.paths[i], c.paths[j]) {
      assert HeldLt(mine[i], mine[j]) && Exclusive(mine[i], mine[j]);
    }
    forall i | 0 <= i < |mine| ensures c.paths[i] != [] { assert mine[i] in mine && HeldOk(s, mine[i]); }
    assert mine[0] in mine && HeldOk(s, mine[0]);
    ClaimForMeaning(s.claims, token);
    forall h
      ensures (h in s.claims && h.token == token) <==> (h.path in c.paths && h.token == token && h.agent == c.agent)
    {
      if h in s.claims && h.token == token {
        TokenHasOneAgent(s, mine[0], h);
      }
      if h.path in c.paths && h.token == token && h.agent == c.agent {
        var g :| g in s.claims && g.token == token && g.path == h.path;
        TokenHasOneAgent(s, mine[0], g);
        assert g == h;
      }
    }
  }

  /** The part of the claims that belongs to the tokens listed so far. */
  ghost predicate Restored(s: Inner, listed: seq<SavedClaim>, held: seq<Held>) {
    && Pairwise(held, HeldLe) && Pairwise(held, Exclusive)
    && forall h :: h in held <==> h in s.claims && Listed(listed, h.token)
  }

  lemma {:induction false} OtherTokensAreApart(s: Inner, token: nat, h: Held)
    requires Inv(s) && ClaimFor(s.claims, token).Some? && h in s.claims && h.token != token
    ensures !Touches(ClaimFor(s.claims, token).value.paths, h.path)
  {
    var claim := ClaimFor(s.claims, token).value;
    ClaimForCanonical(s, token);
    forall p | p in claim.paths ensures !Overlap(p, h.path) {
      var g := Held(p, token, claim.agent);
      assert g in s.claims;
      PairOf(s.claims, g, h, Exclusive);
    }
  }

  lemma {:induction false} RestMeetsNothing(s: Inner, held: seq<Held>, token: nat)
    requires Inv(s) && ClaimFor(s.claims, token).Some? && forall h | h in held :: h in s.claims && h.token != token
    ensures !Conflicts(held, ClaimFor(s.claims, token).value.paths) && !HasToken(held, token)
  {
    forall h | h in held ensures !Touches(ClaimFor(s.claims, token).value.paths, h.path) {
      OtherTokensAreApart(s, token, h);
    }
  }

  lemma {:induction false} CanonicalClaimLoads(held: seq<Held>, claim: PathClaim)
    requires 1 <= claim.token <= U64_MAX && ValidAgent(claim.agent) && Canonical(claim.paths)
    requires !HasToken(held, claim.token) && !Conflicts(held, claim.paths)
    ensures LoadClaim(held, SaveClaim(claim)) == Ok(InsertAll(held, claim.token, claim.agent, claim.paths))
  {
    CanonicalStays(claim.paths);
    ValidAgentIsNormal(claim.agent);
  }

  lemma {:induction false} TopClaimLoads(s: Inner, held: seq<Held>, c: SavedClaim)
    requires Inv(s) && IsTop(s, c) && forall h | h in held :: h in s.claims && h.token != c.token
    ensures var claim := ClaimFor(s.claims, c.token).value;
      LoadClaim(held, c) == Ok(InsertAll(held, c.token, claim.agent, claim.paths))
  {
    ClaimForCanonical(s, c.token);
    RestMeetsNothing(s, held, c.token);
    CanonicalClaimLoads(held, ClaimFor(s.claims, c.token).value);
  }

  lemma {:induction false} RestoreClaim(s: Inner, listed: seq<SavedClaim>, held: seq<Held>, c: SavedClaim)
    requires Inv(s) && Restored(s, listed, held) && IsTop(s, c) && !Listed(listed, c.token)
    ensures LoadClaim(held, c).Ok? && Restored(s, listed + [c], LoadClaim(held, c).value)
  {
    var claim := ClaimFor(s.claims, c.token).value;
    TopClaimLoads(s, held, c);
    ClaimForCanonical(s, c.token);
    forall h | h in held ensures !Touches(claim.paths, h.path) { OtherTokensAreApart(s, c.token, h); }
    InsertAllKeeps(held, c.token, claim.agent, claim.paths);
    var r := InsertAll(held, c.token, claim.agent, claim.paths);
    forall h ensures h in r <==> h in s.claims && Listed(listed + [c], h.token) {
      ListedSnoc(listed, c, h.token);
      if h.token == c.token && h.path in claim.paths && h.agent == claim.agent {
        assert h == Held(h.path, c.token, claim.agent);
      }
    }
  }

  lemma {:induction false} ListedSnoc(listed: seq<SavedClaim>, c: SavedClaim, token: nat)
    ensures Listed(listed + [c], token) <==> Listed(listed, token) || c.token == token
  {
    if Listed(listed, token) {
      var d :| d in listed && d.token == token;
      assert d in listed + [c];
    }
    if c.token == token { assert c in listed + [c]; }
  }

  lemma {:induction false} NotListedBefore(saved: seq<SavedClaim>, n: nat)
    requires Pairwise(saved, DistinctSaved) && n < |saved|
    ensures !Listed(saved[..n], saved[n].token)
  {
    forall c | c in saved[..n] ensures c.token != saved[n].token {
      var i :| 0 <= i < n && saved[..n][i] == c;
      assert DistinctSaved(saved[i], saved[n]);
    }
  }

  lemma {:induction false} ClaimsRoundTrip(s: Inner, top: seq<SavedClaim>)
    requires Inv(s) && Pairwise(top, DistinctSaved) && forall c | c in top :: IsTop(s, c)
    ensures LoadClaims(top).Ok? && Restored(s, top, LoadClaims(top).value)
  {
    if top != [] {
      var n := |top| - 1;
      assert top == top[..n] + [top[n]];
      ClaimsRoundTrip(s, top[..n]);
      NotListedBefore(top, n);
      RestoreClaim(s, top[..n], LoadClaims(top[..n]).value, top[n]);
    }
  }

  lemma {:induction false} NextIsKept(s: Inner, top: seq<SavedClaim>)
    requires Inv(s) && forall c | c in top :: IsTop(s, c)
    ensures NextAfter(s.next, top) == s.next
  {
    if top != [] {
      var n := |top| - 1;
      assert top == top[..n] + [top[n]];
      NextIsKept(s, top[..n]);
      assert IsTop(s, top[n]);
      ClaimForCanonical(s, top[n].token);
    }
  }

  // ----- The scopes come back -----

  ghost predicate RestoredChildren(s: Inner, listed: seq<SavedClaim>, t: Inner) {
    && t.next == s.next && t.claims == s.claims && t.bindings == s.bindings
    && Pairwise(t.children, TokenLe) && Pairwise(t.children, Siblings)
    && forall d :: d in t.children <==> d in s.children && Listed(listed, d.token)
  }

  lemma {:induction false} BindingIsUnique(s: Inner, b: Binding)
    requires Inv(s) && b in s.bindings
    ensures FindBinding(s.bindings, b.child) == Some(b)
  {
    FindBindingMeaning(s.bindings, b.child);
    PairOf(s.bindings, b, FindBinding(s.bindings, b.child).value, DistinctBindings);
  }

  lemma {:induction false} ParentOf(s: Inner, d: PathClaim) returns (b: Binding)
    requires Inv(s) && d in s.children
    ensures b in s.bindings && RootedBy(s, d, b) && BindingOk(s.next, b) && FindBinding(s.bindings, d.token) == Some(b)
    ensures ClaimFor(s.claims, b.parent).Some?
  {
    assert Rooted(s, d);
    b :| b in s.bindings && RootedBy(s, d, b);
    BindingIsUnique(s, b);
    ClaimForMeaning(s.claims, b.parent);
    var h :| h in s.claims && h.token == b.parent;
  }

  lemma {:induction false} ScopeStillOk(s: Inner, d: PathClaim, b: Binding, t: Inner)
    requires Inv(s) && d in s.children && b in s.bindings && RootedBy(s, d, b) && BindingOk(s.next, b)
    requires ClaimFor(s.claims, b.parent).Some? && t.claims == s.claims
    requires forall e | e in t.children :: e in s.children && e.token != d.token
    requires forall h | h in s.claims :: h.agent != d.agent
    ensures ScopeOk(t, ClaimFor(s.claims, b.parent).value, d.agent, d.paths)
  {
    var parent := ClaimFor(s.claims, b.parent).value;
    ValidAgentIsNormal(d.agent);
    ClaimForMeaning(s.claims, b.parent);
    forall p | p in d.paths ensures Covered(parent.paths, p) {
      assert CoveredByToken(s.claims, b.parent, p);
      var h :| h in s.claims && h.token == b.parent && Covers(h.path, p);
      assert h.path in parent.paths;
    }
    var h :| h in s.claims && h.token == b.parent && h.agent != d.agent && !Covered(d.paths, h.path);
    assert h.path in parent.paths;
    forall e | e in t.children ensures e.agent != d.agent && Disjoint(e.paths, d.paths) {
      PairOf(s.children, e, d, Siblings);
      if Disjoint(d.paths, e.paths) { DisjointSymmetric(d.paths, e.paths); }
    }
  }

  lemma {:induction false} ChildLoads(s: Inner, t: Inner, d: PathClaim)
    requires Inv(s) && WorkersHoldNoClaims(s) && d in s.children && d.token <= U64_MAX
    requires t.claims == s.claims && t.bindings == s.bindings
    requires forall e | e in t.children :: e in s.children && e.token != d.token
    ensures LoadChild(t, SaveClaim(d)) == Some(t.(children := Insert(d, t.children, TokenLe)))
  {
    var b := ParentOf(s, d);
    CanonicalStays(d.paths);
    assert forall h | h in s.claims :: h.agent != d.agent;
    ScopeStillOk(s, d, b, t);
  }

  lemma {:induction false} RestoreChild(s: Inner, listed: seq<SavedClaim>, t: Inner, c: SavedClaim)
    requires Inv(s) && WorkersHoldNoClaims(s) && RestoredChildren(s, listed, t) && IsSavedChild(s, c)
    requires !Listed(listed, c.token)
    ensures LoadChild(t, c).Some? && RestoredChildren(s, listed + [c], LoadChild(t, c).value)
  {
    var d :| d in s.children && d.token <= U64_MAX && c == SaveClaim(d);
    ChildLoads(s, t, d);
    forall e | e in t.children ensures Siblings(e, d) {
      PairOf(s.children, e, d, Siblings);
      if Disjoint(d.paths, e.paths) { DisjointSymmetric(d.paths, e.paths); }
    }
    InsertChildKeeps(t.children, d);
    forall e ensures e in Insert(d, t.children, TokenLe) <==> e in s.children && Listed(listed + [c], e.token) {
      ListedSnoc(listed, c, e.token);
      if e in s.children && e.token == d.token { PairOf(s.children, e, d, Siblings); }
    }
  }

  lemma {:induction false} RestoreNext(s: Inner, saved: seq<SavedClaim>, t: Inner, i: nat)
    requires Inv(s) && WorkersHoldNoClaims(s) && i < |saved| && !Listed(saved[..i], saved[i].token)
    requires IsSavedChild(s, saved[i]) && RestoredChildren(s, saved[..i], t)
    ensures LoadChild(t, saved[i]).Some? && RestoredChildren(s, saved[..i + 1], LoadChild(t, saved[i]).value)
  {
    PrefixSnoc(saved, i);
    RestoreChild(s, saved[..i], t, saved[i]);
  }

  lemma {:induction false} ChildrenRoundTrip(s: Inner, saved: seq<SavedClaim>)
    requires Inv(s) && WorkersHoldNoClaims(s) && Pairwise(saved, DistinctSaved)
    requires forall c | c in saved :: IsSavedChild(s, c)
    ensures var t := LoadChildren(s.(children := []), saved); t.Some? && RestoredChildren(s, saved, t.value)
  {
    var built := (t: Inner, i: nat) => i <= |saved| && RestoredChildren(s, saved[..i], t);
    forall t: Inner, i: nat | i < |saved| && built(t, i)
      ensures LoadChild(t, saved[i]).Some? && built(LoadChild(t, saved[i]).value, i + 1)
    {
      NotListedBefore(saved, i);
      RestoreNext(s, saved, t, i);
    }
    FoldBuilds(LoadChild, s.(children := []), saved, |saved|, built);
    assert saved[..|saved|] == saved;
  }

  predicate TokenLt(a: PathClaim, b: PathClaim) {
    a.token < b.token
  }

  lemma {:induction false} SameChildrenSameList(a: seq<PathClaim>, b: seq<PathClaim>)
    requires Pairwise(a, TokenLe) && Pairwise(a, Siblings) && Pairwise(b, TokenLe) && Pairwise(b, Siblings)
    requires forall d :: d in a <==> d in b
    ensures a == b
  {
    forall i, j | 0 <= i < j < |a| ensures TokenLt(a[i], a[j]) { assert TokenLe(a[i], a[j]) && Siblings(a[i], a[j]); }
    forall i, j | 0 <= i < j < |b| ensures TokenLt(b[i], b[j]) { assert TokenLe(b[i], b[j]) && Siblings(b[i], b[j]); }
    StrictUnique(a, b, TokenLt);
  }

  /** A scope only loads when its worker holds no claim. */
  lemma {:induction false} LoadedWorkersHoldNoClaims(s: Inner, saved: seq<SavedClaim>)
    requires LoadChildren(s, saved).Some?
    ensures forall c, h | c in saved && h in s.claims :: h.agent != c.agent
  {
    var inv := (t: Inner) => t.claims == s.claims;
    var need := (c: SavedClaim) => forall h | h in s.claims :: h.agent != c.agent;
    forall t: Inner, c: SavedClaim | inv(t) && LoadChild(t, c).Some? ensures inv(LoadChild(t, c).value) && need(c) {
      LoadChildNeeds(t, c);
    }
    FoldNeeds(LoadChild, s, saved, inv, need);
  }

  lemma {:induction false} LoadChildNeeds(s: Inner, c: SavedClaim)
    requires LoadChild(s, c).Some?
    ensures LoadChild(s, c).value.claims == s.claims && forall h | h in s.claims :: h.agent != c.agent
  {
  }

  // ----- The whole round trip -----

  lemma {:induction false} SavedSplit(s: Inner, snap: Snapshot, saved: seq<SavedBinding>)
    requires Inv(s) && Saves(s, snap, saved)
    ensures var top, children := Filter(snap.claims, TopSaved(saved)), Filter(snap.claims, ChildSaved(saved));
      && Pairwise(top, DistinctSaved) && (forall c | c in top :: IsTop(s, c))
      && Pairwise(children, DistinctSaved) && (forall c | c in children :: IsSavedChild(s, c))
      && (forall h | h in s.claims :: Listed(top, h.token))
      && (forall d | d in s.children :: Listed(children, d.token))
  {
    var top, children := Filter(snap.claims, TopSaved(saved)), Filter(snap.claims, ChildSaved(saved));
    FilterPairwise(snap.claims, TopSaved(saved), DistinctSaved);
    FilterPairwise(snap.claims, ChildSaved(saved), DistinctSaved);
    forall c | c in snap.claims ensures IsChild(saved, c.token) ==> IsSavedChild(s, c)
      ensures !IsChild(saved, c.token) ==> IsTop(s, c)
    {
      SavedKind(s, saved, c);
    }
    forall h | h in s.claims ensures Listed(top, h.token) {
      var c :| c in snap.claims && c.token == h.token;
      HeldIsNoChild(s, saved, h);
      assert c in top;
    }
    forall d | d in s.children ensures Listed(children, d.token) {
      var c :| c in snap.claims && c.token == d.token;
      ChildIsChild(s, saved, d);
      assert c in children;
    }
  }

  lemma {:induction false} ChildIsChild(s: Inner, saved: seq<SavedBinding>, d: PathClaim)
    requires Inv(s) && SavesBindings(s.bindings, saved) && d in s.children
    ensures IsChild(saved, d.token)
  {
    var b := ParentOf(s, d);
    var i :| 0 <= i < |s.bindings| && s.bindings[i] == b;
    assert saved[i] in saved && saved[i].child == d.token;
  }

  lemma {:induction false} HeldIsNoChild(s: Inner, saved: seq<SavedBinding>, h: Held)
    requires Inv(s) && SavesBindings(s.bindings, saved) && h in s.claims
    ensures !IsChild(saved, h.token)
  {
    assert HeldOk(s, h);
    forall e | e in saved ensures e.child != h.token {
      var i :| 0 <= i < |saved| && saved[i] == e;
      assert s.bindings[i] in s.bindings;
    }
  }

  lemma {:induction false} SavedKind(s: Inner, saved: seq<SavedBinding>, c: SavedClaim)
    requires Inv(s) && SavesBindings(s.bindings, saved) && (IsTop(s, c) || IsSavedChild(s, c))
    ensures IsChild(saved, c.token) ==> IsSavedChild(s, c)
    ensures !IsChild(saved, c.token) ==> IsTop(s, c)
  {
    if IsTop(s, c) {
      ClaimForMeaning(s.claims, c.token);
      var h :| h in s.claims && h.token == c.token;
      HeldIsNoChild(s, saved, h);
    }
    if IsSavedChild(s, c) {
      var d :| d in s.children && d.token <= U64_MAX && c == SaveClaim(d);
      ChildIsChild(s, saved, d);
    }
  }

  /**
   * Saving and loading gives the same coordinator back exactly when no worker with an active
   * scope holds a claim of its own; otherwise the saved state does not load.
   */
  lemma {:induction false} RoundTripIff(s: Inner, snap: Snapshot, saved: seq<SavedBinding>)
    requires Inv(s) && Saves(s, snap, saved)
    ensures Load(snap, saved).Some? <==> WorkersHoldNoClaims(s)
    ensures WorkersHoldNoClaims(s) ==> Load(snap, saved) == Some(s)
  {
    var children := Filter(snap.claims, ChildSaved(saved));
    SavedSplit(s, snap, saved);
    LoadIsScopes(s, snap, saved);
    if WorkersHoldNoClaims(s) {
      ScopesReturn(s, children);
    } else {
      ScopesRefused(s, children);
    }
  }

  /** The claims and bindings come back, so loading comes down to the scopes. */
  lemma {:induction false} LoadIsScopes(s: Inner, snap: Snapshot, saved: seq<SavedBinding>)
    requires Inv(s) && Saves(s, snap, saved)
    ensures Load(snap, saved) == LoadChildren(s.(children := []), Filter(snap.claims, ChildSaved(saved)))
  {
    var top := Filter(snap.claims, TopSaved(saved));
    SavedSplit(s, snap, saved);
    BindingsRoundTrip(s.next, s.bindings, saved);
    ClaimsRoundTrip(s, top);
    SameHeldSameClaims(LoadClaims(top).value, s.claims);
    NextIsKept(s, top);
  }

  ghost predicate ListsScopes(s: Inner, children: seq<SavedClaim>) {
    && Pairwise(children, DistinctSaved) && (forall c | c in children :: IsSavedChild(s, c))
    && forall d | d in s.children :: Listed(children, d.token)
  }

  lemma {:induction false} ScopesReturn(s: Inner, children: seq<SavedClaim>)
    requires Inv(s) && WorkersHoldNoClaims(s) && ListsScopes(s, children)
    ensures LoadChildren(s.(children := []), children) == Some(s)
  {
    ChildrenRoundTrip(s, children);
    SameChildrenSameList(LoadChildren(s.(children := []), children).value.children, s.children);
  }

  lemma {:induction false} ScopesRefused(s: Inner, children: seq<SavedClaim>)
    requires Inv(s) && !WorkersHoldNoClaims(s) && ListsScopes(s, children)
    ensures LoadChildren(s.(children := []), children).None?
  {
    var d, h :| d in s.children && h in s.claims && h.agent == d.agent;
    ListedChildIsSaved(s, children, d);
    if LoadChildren(s.(children := []), children).Some? {
      LoadedWorkersHoldNoClaims(s.(children := []), children);
    }
  }

  lemma {:induction false} ListedChildIsSaved(s: Inner, children: seq<SavedClaim>, d: PathClaim)
    requires Inv(s) && d in s.children && Listed(children, d.token) && forall c | c in children :: IsSavedChild(s, c)
    ensures exists c | c in children :: c.agent == d.agent
  {
    var c :| c in children && c.token == d.token;
    var e :| e in s.children && e.token <= U64_MAX && c == SaveClaim(e);
    PairOf(s.children, d, e, Siblings);
  }

  /** A worker may claim paths while its scope is active. */
  lemma {:induction false} WorkerClaims(s: Inner, d: PathClaim, raws: seq<RawPath>, t: Inner)
    requires Inv(s) && d in s.children && ClaimOp(s, d.agent, raws).result.Ok? && t == ClaimOp(s, d.agent, raws).inner
    ensures Inv(t) && !WorkersHoldNoClaims(t)
  {
    ClaimKeeps(s, d.agent, raws);
    var b := ParentOf(s, d);
    ValidAgentIsNormal(d.agent);
    ClaimMeaning(raws);
    var paths := ClaimPaths(raws).value;
    GrantedIsHeld(s, d.agent, paths);
    assert Held(paths[0], s.next, d.agent) in t.claims && d in t.children;
  }

  /** The state such a worker leaves does not load. */
  lemma {:induction false} ClaimingWorkerBlocksLoading(s: Inner, d: PathClaim, raws: seq<RawPath>, snap: Snapshot,
      saved: seq<SavedBinding>)
    requires Inv(s) && d in s.children && ClaimOp(s, d.agent, raws).result.Ok?
    requires Saves(ClaimOp(s, d.agent, raws).inner, snap, saved)
    ensures Load(snap, saved).None?
  {
    var t := ClaimOp(s, d.agent, raws).inner;
    WorkerClaims(s, d, raws, t);
    RoundTripIff(t, snap, saved);
  }

  lemma {:induction false} GrantedIsHeld(s: Inner, agent: string, paths: seq<Path>)
    requires Inv(s) && Canonical(paths) && Grant(s, agent, paths).result.Ok?
    ensures Held(paths[0], s.next, agent) in Grant(s, agent, paths).inner.claims
  {
    forall h | h in s.claims ensures h.token != s.next && !Touches(paths, h.path) { assert HeldOk(s, h); }
    InsertAllKeeps(s.claims, s.next, agent, paths);
    assert paths[0] in paths;
  }

  // ----- A run that ends in a state that does not load -----

  const Whole: seq<Path> := [["a"], ["b"]]
  const Part: seq<Path> := [["a"]]
  const Other: seq<Path> := [["c"]]

  lemma {:induction false} ExampleNames()
    ensures ValidAgent("lead") && ValidAgent("worker") && Canonical(Whole) && Canonical(Part) && Canonical(Other)
    ensures Apart(["a"], ["b"]) && Apart(["a"], ["c"]) && Apart(["b"], ["c"])
    ensures !HeldLe(Held(["b"], 1, "lead"), Held(["a"], 1, "lead"))
  {
    assert !TextLe("b", "a") && TextLe("a", "b");
  }

  lemma {:induction false} ExampleClaim(s1: Inner)
    requires s1 == Grant(Empty, "lead", Whole).inner
    ensures s1 == Inner(2, [Held(["a"], 1, "lead"), Held(["b"], 1, "lead")], [], [])
    ensures Grant(Empty, "lead", Whole).result.Ok?
  {
    ExampleNames();
    var a, b := Held(["a"], 1, "lead"), Held(["b"], 1, "lead");
    assert Whole[..1] == [["a"]] && Whole[..1][..0] == [];
    assert InsertAll([], 1, "lead", Whole[..1]) == [a];
    assert Insert(b, [a], HeldLe) == [a, b];
  }

  lemma {:induction false} ExampleGroup(claims: seq<Held>)
    requires claims == [Held(["a"], 1, "lead"), Held(["b"], 1, "lead")]
    ensures ClaimFor(claims, 1) == Some(PathClaim(1, "lead", Whole))
  {
    var a, b := claims[0], claims[1];
    assert claims[..1] == [a];
    assert Filter([a], OfToken(1)) == [a];
    assert Filter(claims, OfToken(1)) == [a, b];
    assert PathsOfHeld([a, b]) == Whole;
  }

  lemma {:induction false} ExampleScope(s1: Inner)
    requires s1 == Inner(2, [Held(["a"], 1, "lead"), Held(["b"], 1, "lead")], [], [])
    ensures ScopeOk(s1, PathClaim(1, "lead", Whole), "worker", Part)
  {
    ExampleNames();
    ValidAgentIsNormal("worker");
    assert Covers(["a"], ["a"]) && ["a"] in Whole && ["b"] in Whole;
    assert Covered(Whole, ["a"]) && !Covered(Part, ["b"]);
  }

  lemma {:induction false} ExampleCut(s1: Inner, digest: string)
    requires s1 == Inner(2, [Held(["a"], 1, "lead"), Held(["b"], 1, "lead")], [], []) && ValidDigest(digest)
    ensures SubordinateOp(s1, PathClaim(1, "lead", Whole), "worker", AsRaws(Part), digest).inner ==
            Inner(3, s1.claims, [PathClaim(2, "worker", Part)], [Binding(2, 1, digest, "worker", Part)])
  {
    ExampleNames();
    ValidAgentIsNormal("worker");
    CanonicalStays(Part);
    ExampleGroup(s1.claims);
    ExampleScope(s1);
  }

  lemma {:induction false} ExampleOther(claims: seq<Held>)
    requires claims == [Held(["a"], 1, "lead"), Held(["b"], 1, "lead")]
    ensures !Conflicts(claims, Other) && Held(["c"], 3, "worker") in InsertAll(claims, 3, "worker", Other)
  {
    ExampleNames();
    assert !Touches(Other, ["a"]) && !Touches(Other, ["b"]);
    assert Other[..0] == [];
    InsertMembers(Held(["c"], 3, "worker"), claims, HeldLe);
  }

  lemma {:induction false} ExampleOwnClaim(s2: Inner)
    requires s2.next == 3 && s2.claims == [Held(["a"], 1, "lead"), Held(["b"], 1, "lead")]
    ensures Held(["c"], 3, "worker") in ClaimOp(s2, "worker", AsRaws(Other)).inner.claims
    ensures ClaimOp(s2, "worker", AsRaws(Other)).inner.children == s2.children
  {
    ExampleNames();
    ValidAgentIsNormal("worker");
    CanonicalStays(Other);
    ExampleOther(s2.claims);
  }

  /** One claim, one scope cut from it, and one claim by that scope's worker. */
  lemma {:induction false} WorkerMayClaim(digest: string)
    requires ValidDigest(digest)
    ensures var s1 := ClaimOp(Empty, "lead", AsRaws(Whole)).inner;
      var s2 := SubordinateOp(s1, PathClaim(1, "lead", Whole), "worker", AsRaws(Part), digest).inner;
      !WorkersHoldNoClaims(ClaimOp(s2, "worker", AsRaws(Other)).inner)
  {
    ExampleLead();
    var s1 := ClaimOp(Empty, "lead", AsRaws(Whole)).inner;
    ExampleCut(s1, digest);
    var s2 := SubordinateOp(s1, PathClaim(1, "lead", Whole), "worker", AsRaws(Part), digest).inner;
    ExampleOwnClaim(s2);
    assert PathClaim(2, "worker", Part) in s2.children;
  }

  lemma {:induction false} ExampleLead()
    ensures ClaimOp(Empty, "lead", AsRaws(Whole)).inner ==
            Inner(2, [Held(["a"], 1, "lead"), Held(["b"], 1, "lead")], [], [])
  {
    ExampleNames();
    ValidAgentIsNormal("lead");
    CanonicalStays(Whole);
    ExampleClaim(Grant(Empty, "lead", Whole).inner);
  }
}
