/** Exclusive path claims, and the narrower claims of subordinate workers inside them. */
module ClaimCoordinator {
  import opened Wrappers
  import opened Text
  import opened Sequences
  import opened Ordering
  import opened ArtifactPaths
  import opened Claims

  const U64_MAX: nat := 0xFFFF_FFFF_FFFF_FFFF

  datatype PathClaim = PathClaim(token: nat, agent: string, paths: seq<Path>)

  /** One claimed path. The claims are kept in path order. */
  datatype Held = Held(path: Path, token: nat, agent: string)

  /** A consumed reservation of a worker inside a parent claim, kept after release. */
  datatype Binding = Binding(child: nat, parent: nat, digest: string, worker: string, paths: seq<Path>)

  datatype Inner = Inner(next: nat, claims: seq<Held>, children: seq<PathClaim>, bindings: seq<Binding>)

  datatype SyncError =
    | BadAgent | BadPaths(error: ClaimError) | Conflict | UnknownToken | InvalidToken | DuplicateToken
    | TokenExhausted | InvalidSubordinate | SubordinateReplay | ActiveSubordinates

  datatype Step<T> = Step(inner: Inner, result: Result<T, SyncError>)

  const Empty := Inner(1, [], [], [])

  // ----- Names -----

  predicate AgentChar(c: char) {
    'a' <= c <= 'z' || 'A' <= c <= 'Z' || '0' <= c <= '9' || c in "-_."
  }

  predicate ValidAgent(a: string) {
    a != "" && a != "." && a != ".." && forall i | 0 <= i < |a| :: AgentChar(a[i])
  }

  function NormalizeAgent(a: string): Option<string> {
    var t := Trim(a);
    if ValidAgent(t) then Some(t) else None
  }

  lemma {:induction false} ValidAgentIsNormal(a: string)
    ensures NormalizeAgent(a) == Some(a) <==> ValidAgent(a)
  {
    if ValidAgent(a) {
      assert AgentChar(a[0]) && AgentChar(a[|a| - 1]);
      TrimMeaning(a);
    }
  }

  predicate ValidDigest(d: string) {
    |d| == 64 && forall i | 0 <= i < |d| :: '0' <= d[i] <= '9' || 'a' <= d[i] <= 'f'
  }

  // ----- Scopes -----

  predicate Overlap(a: Path, b: Path) {
    Covers(a, b) || Covers(b, a)
  }

  predicate Touches(scopes: seq<Path>, path: Path) {
    exists s | s in scopes :: Overlap(s, path)
  }

  predicate Disjoint(a: seq<Path>, b: seq<Path>) {
    forall p | p in b :: !Touches(a, p)
  }

  predicate HeldLe(a: Held, b: Held) {
    PathLe(a.path, b.path)
  }

  lemma {:induction false} HeldLeOrders()
    ensures TotalPreorder(HeldLe)
  {
    forall a: Held, b: Held ensures HeldLe(a, b) || HeldLe(b, a) {
      PathLeTotal(a.path, b.path);
    }
    forall a: Held, b: Held, c: Held | HeldLe(a, b) && HeldLe(b, c) ensures HeldLe(a, c) {
      PathLeTransitive(a.path, b.path, c.path);
    }
  }

  predicate HasToken(claims: seq<Held>, token: nat) {
    exists h | h in claims :: h.token == token
  }

  function OfToken(token: nat): Held -> bool {
    (h: Held) => h.token == token
  }

  function PathsOfHeld(hs: seq<Held>): seq<Path> {
    seq(|hs|, i requires 0 <= i < |hs| => hs[i].path)
  }

  /** The claim a token stands for, its paths in order. */
  function ClaimFor(claims: seq<Held>, token: nat): Option<PathClaim> {
    var mine := Filter(claims, OfToken(token));
    if mine == [] then None else Some(PathClaim(token, mine[0].agent, PathsOfHeld(mine)))
  }

  predicate Conflicts(claims: seq<Held>, paths: seq<Path>) {
    exists h | h in claims :: Touches(paths, h.path)
  }

  function InsertAll(claims: seq<Held>, token: nat, agent: string, paths: seq<Path>): seq<Held> {
    if paths == [] then claims
    else
      var n := |paths| - 1;
      Insert(Held(paths[n], token, agent), InsertAll(claims, token, agent, paths[..n]), HeldLe)
  }

  // ----- Operations -----

  /** A refused claim still uses up its token. */
  function ClaimOp(s: Inner, agent: string, raws: seq<RawPath>): Step<PathClaim> {
    if NormalizeAgent(agent).None? then Step(s, Err(BadAgent))
    else if ClaimPaths(raws).Err? then Step(s, Err(BadPaths(ClaimPaths(raws).error)))
    else Grant(s, NormalizeAgent(agent).value, ClaimPaths(raws).value)
  }

  function Grant(s: Inner, agent: string, paths: seq<Path>): Step<PathClaim> {
    if s.next >= U64_MAX then Step(s, Err(TokenExhausted))
    else if Conflicts(s.claims, paths) then Step(s.(next := s.next + 1), Err(Conflict))
    else Step(s.(next := s.next + 1, claims := InsertAll(s.claims, s.next, agent, paths)),
      Ok(PathClaim(s.next, agent, paths)))
  }

  /** The scope a worker asks for lies inside its parent's, leaves some of it, and meets nobody else's. */
  predicate ScopeOk(s: Inner, parent: PathClaim, worker: string, paths: seq<Path>) {
    && NormalizeAgent(worker) == Some(worker) && worker != parent.agent && paths != []
    && (forall p | p in paths :: Covered(parent.paths, p))
    && !(forall p | p in parent.paths :: Covered(paths, p))
    && (forall c | c in s.children :: c.agent != worker && Disjoint(c.paths, paths))
    && (forall h | h in s.claims :: h.agent != worker)
  }

  predicate Replayed(bindings: seq<Binding>, parent: nat, digest: string, worker: string) {
    exists b | b in bindings :: b.parent == parent && b.digest == digest && b.worker == worker
  }

  function SubordinateOp(s: Inner, parent: PathClaim, worker: string, raws: seq<RawPath>,
      digest: string): Step<PathClaim> {
    if ClaimFor(s.claims, parent.token) != Some(parent) then Step(s, Err(InvalidSubordinate))
    else if ClaimPaths(raws).Err? then Step(s, Err(BadPaths(ClaimPaths(raws).error)))
    else if AsRaws(ClaimPaths(raws).value) != raws || !ValidDigest(digest) then Step(s, Err(InvalidSubordinate))
    else GrantWithin(s, parent, worker, ClaimPaths(raws).value, digest)
  }

  function GrantWithin(s: Inner, parent: PathClaim, worker: string, paths: seq<Path>, digest: string): Step<PathClaim> {
    if Replayed(s.bindings, parent.token, digest, worker) then Step(s, Err(SubordinateReplay))
    else if NormalizeAgent(worker).None? then Step(s, Err(BadAgent))
    else if !ScopeOk(s, parent, worker, paths) then Step(s, Err(InvalidSubordinate))
    else if s.next >= U64_MAX then Step(s, Err(TokenExhausted))
    else
      var claim := PathClaim(s.next, worker, paths);
      Step(Inner(s.next + 1, s.claims, s.children + [claim],
                 s.bindings + [Binding(s.next, parent.token, digest, worker, paths)]), Ok(claim))
  }

  predicate HasChild(children: seq<PathClaim>, token: nat) {
    exists c | c in children :: c.token == token
  }

  predicate HasActiveChild(s: Inner, parent: nat) {
    exists b | b in s.bindings :: b.parent == parent && HasChild(s.children, b.child)
  }

  function Child(children: seq<PathClaim>, token: nat): Option<PathClaim> {
    if children == [] then None
    else if children[0].token == token then Some(children[0])
    else Child(children[1..], token)
  }

  function OtherChild(token: nat): PathClaim -> bool {
    (c: PathClaim) => c.token != token
  }

  function OtherToken(token: nat): Held -> bool {
    (h: Held) => h.token != token
  }

  function ReleaseOp(s: Inner, token: nat): Step<PathClaim> {
    if HasActiveChild(s, token) then Step(s, Err(ActiveSubordinates))
    else if Child(s.children, token).Some? then
      Step(s.(children := Filter(s.children, OtherChild(token))), Ok(Child(s.children, token).value))
    else if ClaimFor(s.claims, token).None? then Step(s, Err(UnknownToken))
    else Step(s.(claims := Filter(s.claims, OtherToken(token))), Ok(ClaimFor(s.claims, token).value))
  }

  function OtherAgent(agent: string): Held -> bool {
    (h: Held) => h.agent != agent
  }

  function OtherWorker(agent: string): PathClaim -> bool {
    (c: PathClaim) => c.agent != agent
  }

  /** The scopes and claims of one agent. */
  function ReleasedBy(s: Inner, agent: string): set<PathClaim> {
    (set c | c in s.children && c.agent == agent)
    + (set h | h in s.claims && h.agent == agent && ClaimFor(s.claims, h.token).Some? ::
      ClaimFor(s.claims, h.token).value)
  }

  function ReleaseAgentOp(s: Inner, agent: string): Step<set<PathClaim>> {
    if NormalizeAgent(agent).None? then Step(s, Err(BadAgent))
    else
      var a := NormalizeAgent(agent).value;
      if exists h | h in s.claims :: h.agent == a && HasActiveChild(s, h.token) then Step(s, Err(ActiveSubordinates))
      else Step(s.(claims := Filter(s.claims, OtherAgent(a)), children := Filter(s.children, OtherWorker(a))),
        Ok(ReleasedBy(s, a)))
  }

  /** The first worker whose scope meets the path decides; otherwise the claims do. */
  function FirstTouching(children: seq<PathClaim>, path: Path): Option<PathClaim> {
    if children == [] then None
    else if Touches(children[0].paths, path) then Some(children[0])
    else FirstTouching(children[1..], path)
  }

  predicate CanWrite(s: Inner, agent: string, path: Path) {
    match FirstTouching(s.children, path)
    case Some(c) => c.agent == agent && Covered(c.paths, path)
    case None => exists h | h in s.claims :: h.agent == agent && Covers(h.path, path)
  }

  function FirstCovering(children: seq<PathClaim>, path: Path): Option<PathClaim> {
    if children == [] then None
    else if Covered(children[0].paths, path) then Some(children[0])
    else FirstCovering(children[1..], path)
  }

  function FirstHolder(claims: seq<Held>, path: Path): Option<string> {
    if claims == [] then None
    else if Covers(claims[0].path, path) then Some(claims[0].agent)
    else FirstHolder(claims[1..], path)
  }

  function OwnerOf(s: Inner, path: Path): Option<string> {
    match FirstCovering(s.children, path)
    case Some(c) => Some(c.agent)
    case None => FirstHolder(s.claims, path)
  }

  // ----- The invariant -----

  /** Two claimed paths never overlap, and one token is one agent's. */
  predicate Exclusive(a: Held, b: Held) {
    Apart(a.path, b.path) && (a.token == b.token ==> a.agent == b.agent)
  }

  /** No worker holds two scopes and no two scopes meet. */
  predicate Siblings(a: PathClaim, b: PathClaim) {
    a.token != b.token && a.agent != b.agent && Disjoint(a.paths, b.paths)
  }

  predicate TokenLe(a: PathClaim, b: PathClaim) {
    a.token <= b.token
  }

  predicate DistinctBindings(a: Binding, b: Binding) {
    a.child != b.child && !(a.parent == b.parent && a.digest == b.digest && a.worker == b.worker)
  }

  /** A token has been issued: below the next one, which only sticks once the space is exhausted. */
  predicate Issued(next: nat, token: nat) {
    1 <= token && (token < next || token == next == U64_MAX)
  }

  ghost predicate HeldOk(s: Inner, h: Held) {
    h.path != [] && ValidAgent(h.agent) && Issued(s.next, h.token) && forall b | b in s.bindings :: b.child != h.token
  }

  ghost predicate BindingOk(next: nat, b: Binding) {
    && 1 <= b.child < next && 1 <= b.parent < next && b.child != b.parent
    && ValidAgent(b.worker) && ValidDigest(b.digest) && Canonical(b.paths)
  }

  /** An active scope lies inside the live claim it was cut from, and does not take all of it. */
  ghost predicate RootedBy(s: Inner, c: PathClaim, b: Binding) {
    && b.child == c.token && b.worker == c.agent && b.paths == c.paths
    && (forall p | p in c.paths :: CoveredByToken(s.claims, b.parent, p))
    && exists h | h in s.claims :: h.token == b.parent && h.agent != c.agent && !Covered(c.paths, h.path)
  }

  predicate CoveredByToken(claims: seq<Held>, token: nat, path: Path) {
    exists h | h in claims :: h.token == token && Covers(h.path, path)
  }

  ghost predicate Rooted(s: Inner, c: PathClaim) {
    exists b | b in s.bindings :: RootedBy(s, c, b)
  }

  ghost predicate Inv(s: Inner) {
    && 1 <= s.next <= U64_MAX
    && Pairwise(s.claims, HeldLe) && Pairwise(s.claims, Exclusive) && (forall h | h in s.claims :: HeldOk(s, h))
    && Pairwise(s.children, TokenLe) && Pairwise(s.children, Siblings) && (forall c | c in s.children :: Rooted(s, c))
    && Pairwise(s.bindings, DistinctBindings) && (forall b | b in s.bindings :: BindingOk(s.next, b))
  }

  // ----- Exclusion -----

  lemma {:induction false} PairOf<T>(s: seq<T>, x: T, y: T, rel: (T, T) -> bool)
    requires Pairwise(s, rel) && x in s && y in s
    ensures x == y || rel(x, y) || rel(y, x)
  {
    var i :| 0 <= i < |s| && s[i] == x;
    var j :| 0 <= j < |s| && s[j] == y;
    if i < j {
      assert rel(s[i], s[j]);
    } else if j < i {
      assert rel(s[j], s[i]);
    }
  }

  lemma {:induction false} FirstTouchingMeaning(children: seq<PathClaim>, path: Path)
    ensures var f := FirstTouching(children, path);
      && (f.Some? ==> f.value in children && Touches(f.value.paths, path))
      && (f.None? ==> forall c | c in children :: !Touches(c.paths, path))
  {
    if children != [] { FirstTouchingMeaning(children[1..], path); }
  }

  lemma {:induction false} FirstCoveringMeaning(children: seq<PathClaim>, path: Path)
    ensures var f := FirstCovering(children, path);
      && (f.Some? ==> f.value in children && Covered(f.value.paths, path))
      && (f.None? ==> forall c | c in children :: !Covered(c.paths, path))
  {
    if children != [] { FirstCoveringMeaning(children[1..], path); }
  }

  lemma {:induction false} FirstHolderMeaning(claims: seq<Held>, path: Path)
    ensures var f := FirstHolder(claims, path);
      && (f.Some? ==> exists h | h in claims :: h.agent == f.value && Covers(h.path, path))
      && (f.None? ==> forall h | h in claims :: !Covers(h.path, path))
  {
    if claims != [] {
      FirstHolderMeaning(claims[1..], path);
      if Covers(claims[0].path, path) { assert claims[0] in claims; }
    }
  }

  /** Two ancestors of one path lie on one line. */
  lemma {:induction false} AncestorsMeet(a: Path, b: Path, path: Path)
    requires Covers(a, path) && Covers(b, path)
    ensures Overlap(a, b)
  {
    if |a| <= |b| { assert a == path[..|a|] == b[..|a|]; } else { assert b == path[..|b|] == a[..|b|]; }
  }

  /** A scope that covers a path is the only one that touches it. */
  lemma {:induction false} CoveringChildIsAlone(s: Inner, c: PathClaim, d: PathClaim, path: Path)
    requires Inv(s) && c in s.children && d in s.children && Covered(c.paths, path) && Touches(d.paths, path)
    ensures c == d
  {
    var p :| p in c.paths && Covers(p, path);
    var q :| q in d.paths && Overlap(q, path);
    if Covers(q, path) {
      AncestorsMeet(p, q, path);
    }
    assert Overlap(p, q) && Overlap(q, p);
    PairOf(s.children, c, d, Siblings);
    assert Touches(c.paths, q) && Touches(d.paths, p);
  }

  lemma {:induction false} HolderIsAlone(s: Inner, g: Held, h: Held, path: Path)
    requires Inv(s) && g in s.claims && h in s.claims && Covers(g.path, path) && Covers(h.path, path)
    ensures g == h
  {
    AncestorsMeet(g.path, h.path, path);
    PairOf(s.claims, g, h, Exclusive);
  }
}
