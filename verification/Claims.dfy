/** Repository paths that agents claim: normalisation, order and collapsing. */
module Claims {
  import opened Wrappers
  import opened Sequences
  import opened Ordering
  import opened ArtifactPaths

  datatype ClaimError = EmptyPath | AbsolutePath | EscapingPath | EmptyClaim

  // ----- Normalisation -----

  /** Walks the components from the repository root. */
  function Resolve(raw: RawPath): Result<Path, ClaimError> {
    if raw == [] then Ok([])
    else
      var n := |raw| - 1;
      match Resolve(raw[..n])
      case Err(e) => Err(e)
      case Ok(p) => ResolveStep(p, raw[n])
  }

  function ResolveStep(p: Path, c: Component): Result<Path, ClaimError> {
    match c
    case Normal(name) => Ok(p + [name])
    case NonUtf8(name) => Ok(p + [name])
    case CurDir => Ok(p)
    case ParentDir => if p == [] then Err(EscapingPath) else Ok(p[..|p| - 1])
    case RootDir => Err(AbsolutePath)
    case Prefix => Err(AbsolutePath)
  }

  function Normalize(raw: RawPath): Result<Path, ClaimError> {
    if raw == [] then Err(EmptyPath)
    else if Resolve(raw) == Ok([]) then Err(EmptyPath)
    else Resolve(raw)
  }

  method NormalizeLoop(raw: RawPath) returns (r: Result<Path, ClaimError>)
    ensures r == Normalize(raw)
  {
    if raw == [] { return Err(EmptyPath); }
    var p: Path := [];
    for n := 0 to |raw|
      invariant Resolve(raw[..n]) == Ok(p)
    {
      assert raw[..n + 1][..n] == raw[..n];
      var next := ResolveStep(p, raw[n]);
      if next.Err? {
        ResolveFails(raw, n + 1);
        return next;
      }
      p := next.value;
    }
    assert raw[..|raw|] == raw;
    return if p == [] then Err(EmptyPath) else Ok(p);
  }

  lemma {:induction false} ResolveFails(raw: RawPath, n: nat)
    requires n <= |raw| && Resolve(raw[..n]).Err?
    ensures Resolve(raw) == Resolve(raw[..n])
    decreases |raw| - n
  {
    if n == |raw| {
      assert raw[..n] == raw;
    } else {
      assert raw[..n + 1][..n] == raw[..n];
      ResolveFails(raw, n + 1);
    }
  }

  /** How deep below the root a walk of the first `n` components ends. */
  function Depth(raw: RawPath, n: nat): int
    requires n <= |raw|
  {
    if n == 0 then 0
    else
      Depth(raw, n - 1)
      + (match raw[n - 1] case Normal(_) => 1 case NonUtf8(_) => 1 case ParentDir => -1 case _ => 0)
  }

  predicate Relative(raw: RawPath) {
    forall i | 0 <= i < |raw| :: !raw[i].RootDir? && !raw[i].Prefix?
  }

  lemma {:induction false} DepthOfPrefix(raw: RawPath, m: nat, n: nat)
    requires n <= m <= |raw|
    ensures Depth(raw[..m], n) == Depth(raw, n)
  {
    if n > 0 { DepthOfPrefix(raw, m, n - 1); }
  }

  ghost predicate StaysInside(raw: RawPath) {
    Relative(raw) && forall n | 0 <= n <= |raw| :: Depth(raw, n) >= 0
  }

  lemma {:induction false} StaysInsideStep(raw: RawPath, m: nat)
    requires m + 1 == |raw|
    ensures Depth(raw, m) == Depth(raw[..m], m)
    ensures StaysInside(raw) <==> StaysInside(raw[..m]) && !raw[m].RootDir? && !raw[m].Prefix? && Depth(raw, |raw|) >= 0
  {
    var init := raw[..m];
    forall n | 0 <= n <= m ensures Depth(init, n) == Depth(raw, n) {
      DepthOfPrefix(raw, m, n);
    }
    assert forall i | 0 <= i < m :: raw[i] == init[i];
    if StaysInside(raw) {
      assert forall n | 0 <= n <= m :: Depth(init, n) == Depth(raw, n) && Depth(raw, n) >= 0;
    }
  }

  /** A walk succeeds iff it is relative and never climbs above the root, and ends at its depth. */
  lemma {:induction false} ResolveIff(raw: RawPath)
    ensures Resolve(raw).Ok? <==> StaysInside(raw)
    ensures Resolve(raw).Ok? ==> |Resolve(raw).value| == Depth(raw, |raw|)
  {
    if raw != [] {
      var m := |raw| - 1;
      ResolveIff(raw[..m]);
      StaysInsideStep(raw, m);
    }
  }

  /** A normalised path stands for itself, so normalising twice is normalising once. */
  lemma {:induction false} ResolveAsRaw(p: Path)
    ensures Resolve(AsRaw(p)) == Ok(p)
  {
    if p != [] {
      var n := |p| - 1;
      ResolveAsRaw(p[..n]);
      assert AsRaw(p)[..n] == AsRaw(p[..n]);
      assert p == p[..n] + [p[n]];
    }
  }

  /** Replacing the start of a path by where it leads does not change where the whole leads. */
  lemma {:induction false} ResolveJoins(a: RawPath, b: RawPath)
    requires Resolve(a).Ok?
    ensures Resolve(a + b) == Resolve(AsRaw(Resolve(a).value) + b)
  {
    var short := AsRaw(Resolve(a).value);
    ResolveAsRaw(Resolve(a).value);
    if b == [] {
      assert a + b == a && short + b == short;
    } else {
      var n := |b| - 1;
      ResolveJoins(a, b[..n]);
      assert (a + b)[..|a + b| - 1] == a + b[..n];
      assert (short + b)[..|short + b| - 1] == short + b[..n];
    }
  }

  // ----- Order -----

  /** Component by component; an ancestor comes before everything below it. */
  predicate PathLe(a: Path, b: Path) {
    a == [] || (b != [] && (if a[0] == b[0] then PathLe(a[1..], b[1..]) else TextLe(a[0], b[0])))
  }

  predicate PathLt(a: Path, b: Path) {
    PathLe(a, b) && a != b
  }

  lemma {:induction false} PathLeTotal(a: Path, b: Path)
    ensures PathLe(a, b) || PathLe(b, a)
    ensures PathLe(a, b) && PathLe(b, a) ==> a == b
  {
    if a != [] && b != [] {
      TextLeTotal(a[0], b[0]);
      PathLeTotal(a[1..], b[1..]);
      assert a == [a[0]] + a[1..] && b == [b[0]] + b[1..];
    }
  }

  lemma {:induction false} PathLeTransitive(a: Path, b: Path, c: Path)
    requires PathLe(a, b) && PathLe(b, c)
    ensures PathLe(a, c)
  {
    if a != [] {
      if a[0] == b[0] == c[0] {
        PathLeTransitive(a[1..], b[1..], c[1..]);
      } else {
        TextLeTotal(a[0], b[0]);
        TextLeTotal(b[0], c[0]);
        TextLeTransitive(a[0], b[0], c[0]);
      }
    }
  }

  lemma {:induction false} AncestorFirst(a: Path, b: Path)
    requires a <= b
    ensures PathLe(a, b)
  {
    if a != [] { AncestorFirst(a[1..], b[1..]); }
  }

  ghost predicate Ascending(paths: seq<Path>) {
    Pairwise(paths, PathLt)
  }

  /** Insertion into an ordered set of paths. */
  function InsertPath(p: Path, s: seq<Path>): (r: seq<Path>)
    ensures forall q :: q in r <==> q == p || q in s
  {
    if s == [] then [p]
    else if p == s[0] then s
    else if PathLe(p, s[0]) then [p] + s
    else [s[0]] + InsertPath(p, s[1..])
  }

  lemma {:induction false} InsertPathAscends(p: Path, s: seq<Path>)
    requires Ascending(s)
    ensures Ascending(InsertPath(p, s))
  {
    if s != [] && p != s[0] {
      PathLeTotal(p, s[0]);
      if PathLe(p, s[0]) {
        forall j | 0 <= j < |s| ensures PathLt(p, s[j]) {
          if j > 0 {
            assert PathLt(s[0], s[j]);
            PathLeTransitive(p, s[0], s[j]);
            PathLeTotal(s[0], s[j]);
          }
        }
      } else {
        InsertPathAscends(p, s[1..]);
        var t := InsertPath(p, s[1..]);
        forall j | 0 <= j < |t| ensures PathLt(s[0], t[j]) {
          assert t[j] == p || t[j] in s[1..];
        }
      }
    }
  }

  /** A path above all others goes to the end. */
  lemma {:induction false} InsertPathLast(p: Path, s: seq<Path>)
    requires forall q | q in s :: PathLt(q, p)
    ensures InsertPath(p, s) == s + [p]
  {
    if s != [] {
      assert s[0] in s;
      PathLeTotal(p, s[0]);
      InsertPathLast(p, s[1..]);
      assert s == [s[0]] + s[1..];
    }
  }

  // ----- Collapsing -----

  /** The claimed path itself or anything below it. */
  predicate Covers(claim: Path, path: Path) {
    claim <= path
  }

  predicate Covered(claims: seq<Path>, path: Path) {
    exists c | c in claims :: Covers(c, path)
  }

  predicate Minimal(paths: seq<Path>, p: Path) {
    forall q | q in paths :: Covers(q, p) ==> q == p
  }

  predicate Apart(a: Path, b: Path) {
    !Covers(a, b) && !Covers(b, a)
  }

  function MinimalIn(paths: seq<Path>): Path -> bool {
    (p: Path) => Minimal(paths, p)
  }

  /** The paths no other path covers, in order. */
  function Collapsed(paths: seq<Path>): seq<Path> {
    Filter(paths, MinimalIn(paths))
  }

  lemma {:induction false} MinimalBelow(paths: seq<Path>, p: Path) returns (m: Path)
    requires p in paths
    ensures m in paths && Minimal(paths, m) && Covers(m, p)
    decreases |p|
  {
    if Minimal(paths, p) {
      m := p;
    } else {
      var q :| q in paths && Covers(q, p) && q != p;
      m := MinimalBelow(paths, q);
    }
  }

  /** Collapsing keeps the meaning: an antichain drawn from the input that covers the same paths. */
  lemma {:induction false} CollapsedMeaning(paths: seq<Path>)
    requires Ascending(paths)
    ensures Ascending(Collapsed(paths)) && Pairwise(Collapsed(paths), Apart)
    ensures forall p | p in Collapsed(paths) :: p in paths
    ensures forall path :: Covered(Collapsed(paths), path) <==> Covered(paths, path)
  {
    var r := Collapsed(paths);
    FilterPairwise(paths, MinimalIn(paths), PathLt);
    forall i, j | 0 <= i < j < |r| ensures Apart(r[i], r[j]) {
      assert r[i] in r && r[j] in r && PathLt(r[i], r[j]);
    }
    forall path | Covered(paths, path) ensures Covered(r, path) {
      var c :| c in paths && Covers(c, path);
      var m := MinimalBelow(paths, c);
      assert m in r && Covers(m, path);
    }
  }

  /** In an ascending list no path lies above an earlier one, so dropping covered claims never drops any. */
  lemma {:induction false} RetainDropsNothing(paths: seq<Path>, n: nat)
    requires Ascending(paths) && n < |paths|
    ensures forall e | e in paths[..n] :: !Covers(paths[n], e)
  {
    forall e | e in paths[..n] ensures !Covers(paths[n], e) {
      var i :| 0 <= i < n && paths[..n][i] == e;
      assert PathLt(paths[i], paths[n]);
      PathLeTotal(paths[n], e);
      if Covers(paths[n], e) {
        AncestorFirst(paths[n], e);
      }
    }
  }

  lemma {:induction false} FilterAll<T(!new)>(s: seq<T>, keep: T -> bool)
    requires forall x | x in s :: keep(x)
    ensures Filter(s, keep) == s
  {
    if s != [] {
      FilterAll(s[..|s| - 1], keep);
      assert s == s[..|s| - 1] + [s[|s| - 1]];
    }
  }

  lemma {:induction false} AncestorIsEarlier(paths: seq<Path>, i: nat, n: nat)
    requires Ascending(paths) && i < |paths| && n < |paths| && Covers(paths[i], paths[n]) && paths[i] != paths[n]
    ensures i < n
  {
    AncestorFirst(paths[i], paths[n]);
    PathLeTotal(paths[i], paths[n]);
    assert n < i ==> PathLt(paths[n], paths[i]);
  }

  lemma {:induction false} EarlierDiffers(paths: seq<Path>, n: nat)
    requires Ascending(paths) && n < |paths|
    ensures forall e | e in paths[..n] :: e in paths && e != paths[n]
  {
    forall e | e in paths[..n] ensures e in paths && e != paths[n] {
      var i :| 0 <= i < n && paths[..n][i] == e;
      assert PathLt(paths[i], paths[n]);
    }
  }

  /** A path is minimal iff nothing already collapsed covers it. */
  lemma {:induction false} MinimalIffUncovered(paths: seq<Path>, n: nat)
    requires Ascending(paths) && n < |paths|
    ensures Minimal(paths, paths[n]) <==> !Covered(Filter(paths[..n], MinimalIn(paths)), paths[n])
  {
    EarlierDiffers(paths, n);
    if !Minimal(paths, paths[n]) {
      var m := MinimalBelow(paths, paths[n]);
      var i :| 0 <= i < |paths| && paths[i] == m;
      AncestorIsEarlier(paths, i, n);
      assert paths[..n][i] == m;
      assert m in Filter(paths[..n], MinimalIn(paths));
    }
  }

  function BelowPath(p: Path): Path -> bool {
    (e: Path) => !Covers(p, e)
  }

  /** One round of the collapsing loop: skip a covered path, else drop what it covers and add it. */
  method AddClaim(collapsed: seq<Path>, path: Path) returns (r: seq<Path>)
    ensures r == if Covered(collapsed, path) then collapsed else Filter(collapsed, BelowPath(path)) + [path]
  {
    if Covered(collapsed, path) { return collapsed; }
    var kept := Retain(collapsed, BelowPath(path));
    return kept + [path];
  }

  lemma {:induction false} CollapseStep(paths: seq<Path>, n: nat, collapsed: seq<Path>)
    requires Ascending(paths) && n < |paths| && collapsed == Filter(paths[..n], MinimalIn(paths))
    ensures Filter(collapsed, BelowPath(paths[n])) == collapsed
    ensures Filter(paths[..n + 1], MinimalIn(paths)) ==
            if Covered(collapsed, paths[n]) then collapsed else collapsed + [paths[n]]
  {
    FilterStep(paths, n, MinimalIn(paths));
    MinimalIffUncovered(paths, n);
    RetainDropsNothing(paths, n);
    FilterAll(collapsed, BelowPath(paths[n]));
  }

  method Collapse(paths: seq<Path>) returns (r: seq<Path>)
    requires Ascending(paths)
    ensures r == Collapsed(paths)
  {
    r := [];
    for n := 0 to |paths|
      invariant r == Filter(paths[..n], MinimalIn(paths))
    {
      CollapseStep(paths, n, r);
      r := AddClaim(r, paths[n]);
    }
    assert paths[..|paths|] == paths;
  }

  // ----- Whole claims -----

  function NormalizeAll(raws: seq<RawPath>): Result<seq<Path>, ClaimError> {
    if raws == [] then Ok([])
    else
      var n := |raws| - 1;
      match NormalizeAll(raws[..n])
      case Err(e) => Err(e)
      case Ok(s) =>
        match Normalize(raws[n])
        case Err(e) => Err(e)
        case Ok(p) => Ok(InsertPath(p, s))
  }

  function ClaimPaths(raws: seq<RawPath>): Result<seq<Path>, ClaimError> {
    match NormalizeAll(raws)
    case Err(e) => Err(e)
    case Ok(s) => if s == [] then Err(EmptyClaim) else Ok(Collapsed(s))
  }

  method NormalizeClaims(raws: seq<RawPath>) returns (r: Result<seq<Path>, ClaimError>)
    ensures r == ClaimPaths(raws)
  {
    var s: seq<Path> := [];
    for n := 0 to |raws|
      invariant NormalizeAll(raws[..n]) == Ok(s) && Ascending(s)
    {
      assert raws[..n + 1][..n] == raws[..n];
      var p := NormalizeLoop(raws[n]);
      if p.Err? {
        NormalizeAllFails(raws, n + 1);
        return Err(p.error);
      }
      InsertPathAscends(p.value, s);
      s := InsertPath(p.value, s);
    }
    assert raws[..|raws|] == raws;
    if s == [] { return Err(EmptyClaim); }
    var collapsed := Collapse(s);
    return Ok(collapsed);
  }

  lemma {:induction false} NormalizeAllFails(raws: seq<RawPath>, n: nat)
    requires n <= |raws| && NormalizeAll(raws[..n]).Err?
    ensures NormalizeAll(raws) == NormalizeAll(raws[..n])
    decreases |raws| - n
  {
    if n == |raws| {
      assert raws[..n] == raws;
    } else {
      assert raws[..n + 1][..n] == raws[..n];
      NormalizeAllFails(raws, n + 1);
    }
  }

  ghost predicate Asked(raws: seq<RawPath>, p: Path) {
    exists i | 0 <= i < |raws| :: Normalize(raws[i]) == Ok(p)
  }

  ghost predicate AllNormalize(raws: seq<RawPath>) {
    forall i | 0 <= i < |raws| :: Normalize(raws[i]).Ok?
  }

  lemma {:induction false} AskedSnoc(raws: seq<RawPath>, last: RawPath, p: Path)
    ensures Asked(raws + [last], p) <==> Asked(raws, p) || Normalize(last) == Ok(p)
  {
    var all := raws + [last];
    if Asked(raws, p) {
      var i :| 0 <= i < |raws| && Normalize(raws[i]) == Ok(p);
      assert Normalize(all[i]) == Ok(p);
    }
    if Normalize(last) == Ok(p) { assert Normalize(all[|raws|]) == Ok(p); }
    if Asked(all, p) {
      var i :| 0 <= i < |all| && Normalize(all[i]) == Ok(p);
      if i < |raws| { assert Normalize(raws[i]) == Ok(p); }
    }
  }

  lemma {:induction false} AllNormalizeSnoc(raws: seq<RawPath>, last: RawPath)
    ensures AllNormalize(raws + [last]) <==> AllNormalize(raws) && Normalize(last).Ok?
  {
    var all := raws + [last];
    assert all[|raws|] == last;
    if AllNormalize(all) {
      forall i | 0 <= i < |raws| ensures Normalize(raws[i]).Ok? { assert all[i] == raws[i]; }
      assert Normalize(all[|raws|]).Ok?;
    }
  }

  lemma {:induction false} NormalizeAllMeaning(raws: seq<RawPath>)
    ensures NormalizeAll(raws).Ok? <==> AllNormalize(raws)
    ensures NormalizeAll(raws).Ok? ==> Ascending(NormalizeAll(raws).value)
    ensures NormalizeAll(raws).Ok? ==> forall p :: p in NormalizeAll(raws).value <==> Asked(raws, p)
  {
    if raws != [] {
      var n := |raws| - 1;
      NormalizeAllMeaning(raws[..n]);
      assert raws == raws[..n] + [raws[n]];
      AllNormalizeSnoc(raws[..n], raws[n]);
      if NormalizeAll(raws).Ok? {
        InsertPathAscends(Normalize(raws[n]).value, NormalizeAll(raws[..n]).value);
        forall p ensures p in NormalizeAll(raws).value <==> Asked(raws, p) {
          AskedSnoc(raws[..n], raws[n], p);
        }
      }
    }
  }

  /** A list of claimed paths in the one form claims are held in. */
  ghost predicate Canonical(paths: seq<Path>) {
    paths != [] && Ascending(paths) && Pairwise(paths, Apart) && NoneEmpty(paths)
  }

  ghost predicate NoneEmpty(paths: seq<Path>) {
    forall i | 0 <= i < |paths| :: paths[i] != []
  }

  ghost predicate CoveredByAsked(raws: seq<RawPath>, path: Path) {
    exists p :: Asked(raws, p) && Covers(p, path)
  }

  lemma {:induction false} AskedNonempty(raws: seq<RawPath>, p: Path)
    requires Asked(raws, p)
    ensures p != []
  {
  }

  lemma {:induction false} SomethingAsked(raws: seq<RawPath>)
    requires raws != [] && AllNormalize(raws)
    ensures Asked(raws, Normalize(raws[0]).value)
  {
  }

  /** A claim is accepted iff it names paths and each one normalises; it then covers exactly what was asked for. */
  lemma {:induction false} ClaimMeaning(raws: seq<RawPath>)
    ensures ClaimPaths(raws).Ok? <==> raws != [] && AllNormalize(raws)
    ensures ClaimPaths(raws).Ok? ==> Canonical(ClaimPaths(raws).value)
    ensures ClaimPaths(raws).Ok? ==>
            forall path :: Covered(ClaimPaths(raws).value, path) <==> CoveredByAsked(raws, path)
  {
    NormalizeAllMeaning(raws);
    if NormalizeAll(raws).Ok? {
      var s := NormalizeAll(raws).value;
      if raws != [] { SomethingAsked(raws); }
      if s != [] {
        AcceptedMeaning(raws, s);
      }
    }
  }

  lemma {:induction false} AcceptedMeaning(raws: seq<RawPath>, s: seq<Path>)
    requires s != [] && Ascending(s) && forall p :: p in s <==> Asked(raws, p)
    ensures Canonical(Collapsed(s))
    ensures forall path :: Covered(Collapsed(s), path) <==> CoveredByAsked(raws, path)
  {
    CollapsedMeaning(s);
    assert Covers(s[0], s[0]);
    assert Covered(s, s[0]);
    var r := Collapsed(s);
    forall i | 0 <= i < |r| ensures r[i] != [] {
      assert r[i] in r;
      AskedNonempty(raws, r[i]);
    }
  }

  function AsRaws(paths: seq<Path>): seq<RawPath> {
    seq(|paths|, i requires 0 <= i < |paths| => AsRaw(paths[i]))
  }

  lemma {:induction false} LastIsAbove(paths: seq<Path>, n: nat)
    requires Ascending(paths) && n + 1 == |paths|
    ensures Ascending(paths[..n]) && forall q | q in paths[..n] :: PathLt(q, paths[n])
  {
    forall q | q in paths[..n] ensures PathLt(q, paths[n]) {
      var i :| 0 <= i < n && paths[..n][i] == q;
      assert PathLt(paths[i], paths[n]);
    }
  }

  lemma {:induction false} NormalizeAllSnoc(raws: seq<RawPath>, s: seq<Path>, p: Path)
    requires NormalizeAll(raws) == Ok(s) && p != []
    ensures NormalizeAll(raws + [AsRaw(p)]) == Ok(InsertPath(p, s))
  {
    ResolveAsRaw(p);
    assert (raws + [AsRaw(p)])[..|raws|] == raws;
  }

  lemma {:induction false} NormalizeCanonical(paths: seq<Path>)
    requires Ascending(paths) && NoneEmpty(paths)
    ensures NormalizeAll(AsRaws(paths)) == Ok(paths)
  {
    if paths != [] {
      var n := |paths| - 1;
      LastIsAbove(paths, n);
      assert paths == paths[..n] + [paths[n]];
      NormalizeCanonical(paths[..n]);
      assert AsRaws(paths) == AsRaws(paths[..n]) + [AsRaw(paths[n])];
      NormalizeAllSnoc(AsRaws(paths[..n]), paths[..n], paths[n]);
      InsertPathLast(paths[n], paths[..n]);
    }
  }

  /** Claims already in canonical form are left alone, and only those are. */
  lemma {:induction false} CanonicalIff(paths: seq<Path>)
    ensures ClaimPaths(AsRaws(paths)) == Ok(paths) <==> Canonical(paths)
  {
    if Canonical(paths) {
      NormalizeCanonical(paths);
      forall p | p in paths ensures Minimal(paths, p) {
        MinimalInAntichain(paths, p);
      }
      FilterAll(paths, MinimalIn(paths));
    } else {
      ClaimMeaning(AsRaws(paths));
    }
  }

  lemma {:induction false} ApartEitherWay(paths: seq<Path>, i: nat, j: nat)
    requires Pairwise(paths, Apart) && i < |paths| && j < |paths| && i != j
    ensures Apart(paths[i], paths[j])
  {
    if i < j { assert Apart(paths[i], paths[j]); } else { assert Apart(paths[j], paths[i]); }
  }

  lemma {:induction false} MinimalInAntichain(paths: seq<Path>, p: Path)
    requires Pairwise(paths, Apart) && p in paths
    ensures Minimal(paths, p)
  {
    var i :| 0 <= i < |paths| && paths[i] == p;
    forall q | q in paths ensures Covers(q, p) ==> q == p {
      var j :| 0 <= j < |paths| && paths[j] == q;
      if i != j { ApartEitherWay(paths, i, j); }
    }
  }
}
