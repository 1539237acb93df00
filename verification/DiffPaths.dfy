/** The paths a unified diff names, and the check that they stay inside the claims. */
module DiffPaths {
  import opened Wrappers
  import opened Text
  import opened ArtifactPaths
  import opened Claims

  datatype DiffError = BadPath(error: ClaimError) | NoPaths | UndeclaredPath | OutsideClaims

  // ----- Lines -----

  function TrimCr(line: string): string {
    if line != "" && line[|line| - 1] == '\r' then line[..|line| - 1] else line
  }

  function TrimAll(lines: seq<string>): seq<string> {
    seq(|lines|, i requires 0 <= i < |lines| => TrimCr(lines[i]))
  }

  /** Terminated lines lose a carriage return before the newline; an empty remainder is no line. */
  function Lines(text: string): seq<string> {
    var parts := Split(text, '\n');
    var n := |parts| - 1;
    if parts[n] == "" then TrimAll(parts[..n]) else TrimAll(parts[..n]) + [parts[n]]
  }

  predicate Starts(line: string, prefix: string) {
    prefix <= line
  }

  // ----- Paths in a line -----

  function Pieces(parts: seq<string>): RawPath {
    if parts == [] then []
    else
      (if parts[0] == "" then []
       else if parts[0] == "." then [CurDir]
       else if parts[0] == ".." then [ParentDir]
       else [Normal(parts[0])])
      + Pieces(parts[1..])
  }

  /** The components of a slash-separated path. */
  function Components(text: string): RawPath {
    (if Starts(text, "/") then [RootDir] else []) + Pieces(Split(text, '/'))
  }

  function StripSide(text: string): string {
    if Starts(text, "a/") || Starts(text, "b/") then text[2..] else text
  }

  function DiffPath(raw: string): Result<Option<Path>, ClaimError> {
    var text := Trim(raw);
    if text == "/dev/null" || text == "" then Ok(None)
    else
      match Normalize(Components(StripSide(text)))
      case Err(e) => Err(e)
      case Ok(p) => Ok(Some(p))
  }

  function ToList(r: Result<Option<Path>, ClaimError>): Result<seq<Path>, ClaimError> {
    match r
    case Err(e) => Err(e)
    case Ok(None) => Ok([])
    case Ok(Some(p)) => Ok([p])
  }

  function Both(a: Result<seq<Path>, ClaimError>, b: Result<seq<Path>, ClaimError>): Result<seq<Path>, ClaimError> {
    if a.Err? then a else if b.Err? then b else Ok(a.value + b.value)
  }

  predicate SideAt(s: string, i: nat) {
    i + 3 <= |s| && s[i] == ' ' && s[i + 1] == 'b' && s[i + 2] == '/'
  }

  function FindSide(s: string, from: nat): (r: Option<nat>)
    ensures r.Some? ==> from <= r.value && SideAt(s, r.value) && forall j | from <= j < r.value :: !SideAt(s, j)
    ensures r.None? ==> forall j | from <= j :: !SideAt(s, j)
    decreases |s| - from
  {
    if from >= |s| then None else if SideAt(s, from) then Some(from) else FindSide(s, from + 1)
  }

  function GitPaths(rest: string): Result<seq<Path>, ClaimError> {
    match FindSide(rest, 0)
    case None => Ok([])
    case Some(i) => Both(ToList(DiffPath(rest[..i])), ToList(DiffPath(rest[i + 1..])))
  }

  function HeaderPath(line: string): Result<seq<Path>, ClaimError>
    requires |line| >= 4
  {
    ToList(DiffPath(Split(line[4..], '\t')[0]))
  }

  // ----- The scan -----

  const GIT := "diff --git "
  const HUNK := "@@"
  const OLD := "--- "
  const NEW := "+++ "

  predicate IsHeaderPair(lines: seq<string>, inHunk: bool) {
    !inHunk && |lines| > 1 && Starts(TrimCr(lines[0]), OLD) && Starts(TrimCr(lines[1]), NEW)
  }

  /** The paths named by the remaining lines, in order. */
  function Scan(lines: seq<string>, inHunk: bool): Result<seq<Path>, ClaimError> {
    if lines == [] then Ok([])
    else if Starts(TrimCr(lines[0]), GIT) then
      Both(GitPaths(TrimCr(lines[0])[|GIT|..]), Scan(lines[1..], false))
    else if Starts(TrimCr(lines[0]), HUNK) then Scan(lines[1..], true)
    else if IsHeaderPair(lines, inHunk) then
      Both(Both(HeaderPath(TrimCr(lines[0])), HeaderPath(TrimCr(lines[1]))), Scan(lines[2..], inHunk))
    else Scan(lines[1..], inHunk)
  }

  /** What one round of the scan does: the paths found, the lines used up, and whether a hunk is open. */
  datatype Round = Round(found: Result<seq<Path>, ClaimError>, used: nat, inHunk: bool)

  function ScanRound(lines: seq<string>, inHunk: bool): Round
    requires lines != []
  {
    var line := TrimCr(lines[0]);
    if Starts(line, GIT) then Round(GitPaths(line[|GIT|..]), 1, false)
    else if Starts(line, HUNK) then Round(Ok([]), 1, true)
    else if IsHeaderPair(lines, inHunk) then Round(Both(HeaderPath(line), HeaderPath(TrimCr(lines[1]))), 2, inHunk)
    else Round(Ok([]), 1, inHunk)
  }

  lemma {:induction false} ScanByRounds(lines: seq<string>, inHunk: bool)
    requires lines != []
    ensures var r := ScanRound(lines, inHunk);
      r.used <= |lines| && Scan(lines, inHunk) == Both(r.found, Scan(lines[r.used..], r.inHunk))
  {
    var r := ScanRound(lines, inHunk);
    if r.found == Ok([]) && Scan(lines[r.used..], r.inHunk).Ok? {
      assert [] + Scan(lines[r.used..], r.inHunk).value == Scan(lines[r.used..], r.inHunk).value;
    }
  }

  method InsertPaths(found: seq<Path>, into: seq<Path>) returns (r: seq<Path>)
    requires Ascending(into)
    ensures Ascending(r) && forall p :: p in r <==> p in found || p in into
  {
    r := into;
    for n := 0 to |found|
      invariant Ascending(r) && forall p :: p in r <==> p in found[..n] || p in into
    {
      InsertPathAscends(found[n], r);
      assert found[..n + 1] == found[..n] + [found[n]];
      r := InsertPath(found[n], r);
    }
    assert found[..|found|] == found;
  }

  lemma {:induction false} NothingFirst(r: Result<seq<Path>, ClaimError>)
    ensures Both(Ok([]), r) == r
  {
    if r.Ok? { assert [] + r.value == r.value; }
  }

  /** The scanning loop. */
  method ScanLines(lines: seq<string>) returns (r: Result<seq<Path>, ClaimError>)
    ensures r.Ok? <==> Scan(lines, false).Ok?
    ensures r.Err? ==> r == Scan(lines, false)
    ensures r.Ok? ==> Ascending(r.value) && forall p :: p in r.value <==> p in Scan(lines, false).value
  {
    var paths: seq<Path> := [];
    ghost var seen: seq<Path> := [];
    var inHunk, index := false, 0;
    assert lines[0..] == lines;
    NothingFirst(Scan(lines, false));
    while index < |lines|
      invariant index <= |lines| && Ascending(paths) && forall p :: p in paths <==> p in seen
      invariant Scan(lines, false) == Both(Ok(seen), Scan(lines[index..], inHunk))
    {
      ScanByRounds(lines[index..], inHunk);
      var round := ScanRound(lines[index..], inHunk);
      assert lines[index..][round.used..] == lines[index + round.used..];
      if round.found.Err? { return round.found; }
      BothJoins(seen, round.found.value, Scan(lines[index + round.used..], round.inHunk));
      paths := InsertPaths(round.found.value, paths);
      seen := seen + round.found.value;
      inHunk, index := round.inHunk, index + round.used;
    }
    return Ok(paths);
  }

  /** The paths a diff names, in order and without repeats; naming none is an error. */
  method ParseUnifiedDiffPaths(diff: string) returns (r: Result<seq<Path>, DiffError>)
    ensures r.Ok? <==> Scan(Lines(diff), false).Ok? && Scan(Lines(diff), false).value != []
    ensures r.Ok? ==> Ascending(r.value) && forall p :: p in r.value <==> p in Scan(Lines(diff), false).value
    ensures r.Err? ==>
            r.error == if Scan(Lines(diff), false).Err? then BadPath(Scan(Lines(diff), false).error) else NoPaths
  {
    var lines := Lines(diff);
    var scanned := ScanLines(lines);
    if scanned.Err? { return Err(BadPath(scanned.error)); }
    ghost var found := Scan(lines, false).value;
    if found != [] { assert found[0] in scanned.value; }
    if scanned.value == [] { return Err(NoPaths); }
    assert scanned.value[0] in found;
    return Ok(scanned.value);
  }

  lemma {:induction false} BothJoins(a: seq<Path>, b: seq<Path>, c: Result<seq<Path>, ClaimError>)
    ensures Both(Ok(a), Both(Ok(b), c)) == Both(Ok(a + b), c)
  {
    if c.Ok? { assert a + (b + c.value) == (a + b) + c.value; }
  }

  /** A patch is accepted iff its diff parses, names the declared path and stays inside the claims. */
  method ValidatePatch(declared: Path, diff: string, claims: seq<Path>) returns (r: Result<seq<Path>, DiffError>)
    ensures r.Ok? <==> PatchOk(declared, diff, claims)
    ensures r.Ok? ==> forall p :: p in r.value <==> p in Scan(Lines(diff), false).value
  {
    var parsed := ParseUnifiedDiffPaths(diff);
    if parsed.Err? { return parsed; }
    if declared !in parsed.value { return Err(UndeclaredPath); }
    var inside := AllCovered(parsed.value, claims);
    return if inside then parsed else Err(OutsideClaims);
  }

  method AllCovered(paths: seq<Path>, claims: seq<Path>) returns (ok: bool)
    ensures ok <==> forall p | p in paths :: Covered(claims, p)
  {
    for n := 0 to |paths|
      invariant forall i | 0 <= i < n :: Covered(claims, paths[i])
    {
      if !Covered(claims, paths[n]) {
        assert paths[n] in paths;
        return false;
      }
    }
    return true;
  }

  ghost predicate PatchOk(declared: Path, diff: string, claims: seq<Path>) {
    var found := Scan(Lines(diff), false);
    found.Ok? && declared in found.value && forall p | p in found.value :: Covered(claims, p)
  }

  /** Collapsing the claims never changes which patches are accepted. */
  lemma {:induction false} CollapsedClaimsAcceptTheSame(declared: Path, diff: string, claims: seq<Path>)
    requires Ascending(claims)
    ensures PatchOk(declared, diff, Collapsed(claims)) <==> PatchOk(declared, diff, claims)
  {
    CollapsedMeaning(claims);
  }

  // ----- Hunk bodies add nothing -----

  predicate Inert(line: string) {
    !Starts(TrimCr(line), GIT)
  }

  /** Inside a hunk, no line but a new file section can name a path, whatever it looks like. */
  lemma {:induction false} HunkBodyIsInert(body: seq<string>, rest: seq<string>)
    requires forall i | 0 <= i < |body| :: Inert(body[i])
    ensures Scan(body + rest, true) == Scan(rest, true)
  {
    if body == [] {
      assert body + rest == rest;
    } else {
      var all := body + rest;
      assert all[0] == body[0];
      assert all[1..] == body[1..] + rest;
      HunkBodyIsInert(body[1..], rest);
    }
  }
}
