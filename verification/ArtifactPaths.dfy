/** Run-relative artifact paths. A character of a name stands for one byte of its UTF-8 text. */
module ArtifactPaths {
  import opened Wrappers

  const FINALIZATION_MARKER := ".maco-artifact-final.json"
  const RUN_LOCK_FILE := ".artifact.lock"
  const MAX_ARTIFACT_PATH_BYTES := 4096
  const MAX_ARTIFACT_PATH_COMPONENTS := 64

  datatype Component = Normal(name: string) | NonUtf8(name: string) | CurDir | ParentDir | RootDir | Prefix

  /** A path as given by a caller, and one that passed validation. */
  type RawPath = seq<Component>
  type Path = seq<string>

  datatype PathError = NotRelative | Reserved | Escapes | BadLength | NotText

  predicate IsReserved(name: string) { name == FINALIZATION_MARKER || name == RUN_LOCK_FILE }

  function TextBytes(p: Path): nat {
    if p == [] then 0
    else if |p| == 1 then |p[0]|
    else TextBytes(p[..|p| - 1]) + 1 + |p[|p| - 1]|
  }

  predicate ValidPath(p: Path) {
    && 1 <= |p| <= MAX_ARTIFACT_PATH_COMPONENTS && TextBytes(p) <= MAX_ARTIFACT_PATH_BYTES
    && forall i | 0 <= i < |p| :: !IsReserved(p[i])
  }

  /** The components that must not occur anywhere in a path. */
  predicate Refused(c: Component) {
    c.ParentDir? || c.RootDir? || c.Prefix? || (c.Normal? && IsReserved(c.name))
  }

  /** The error of the first refused component, if there is one. */
  function Refusal(raw: RawPath): (r: Option<PathError>)
    ensures r.None? <==> forall i | 0 <= i < |raw| :: !Refused(raw[i])
  {
    if raw == [] then None
    else
      var n := |raw| - 1;
      var before := Refusal(raw[..n]);
      if before.Some? then before
      else if !Refused(raw[n]) then None
      else Some(if raw[n].Normal? then Reserved else Escapes)
  }

  lemma {:induction false} RefusalStays(raw: RawPath, n: nat)
    requires n <= |raw| && Refusal(raw[..n]).Some?
    ensures Refusal(raw) == Refusal(raw[..n])
  {
    if n < |raw| {
      assert raw[..|raw| - 1][..n] == raw[..n];
      RefusalStays(raw[..|raw| - 1], n);
    } else {
      assert raw[..n] == raw;
    }
  }

  function Names(raw: RawPath): Path {
    if raw == [] then []
    else
      var n := |raw| - 1;
      match raw[n]
      case Normal(name) => Names(raw[..n]) + [name]
      case NonUtf8(_) => Names(raw[..n]) + [""]
      case _ => Names(raw[..n])
  }

  /** Accepted paths: relative, no refused component, UTF-8, and within both limits. */
  ghost predicate Accepted(raw: RawPath) {
    && raw != [] && !raw[0].RootDir?
    && (forall i | 0 <= i < |raw| :: !Refused(raw[i]) && !raw[i].NonUtf8?)
    && ValidPath(Names(raw))
  }

  function ValidatePath(raw: RawPath): (r: Result<Path, PathError>)
    ensures r.Ok? <==> Accepted(raw)
    ensures r.Ok? ==> r.value == Names(raw) && ValidPath(r.value)
  {
    if raw == [] || raw[0].RootDir? then Err(NotRelative)
    else if Refusal(raw).Some? then Err(Refusal(raw).value)
    else if |Names(raw)| == 0 || |Names(raw)| > MAX_ARTIFACT_PATH_COMPONENTS then Err(BadLength)
    else if exists i | 0 <= i < |raw| :: raw[i].NonUtf8? then Err(NotText)
    else if TextBytes(Names(raw)) > MAX_ARTIFACT_PATH_BYTES then Err(BadLength)
    else
      NamesUnreserved(raw);
      Ok(Names(raw))
  }

  lemma {:induction false} NamesUnreserved(raw: RawPath)
    requires forall i | 0 <= i < |raw| :: !Refused(raw[i])
    ensures forall i | 0 <= i < |Names(raw)| :: !IsReserved(Names(raw)[i])
  {
    if raw != [] {
      NamesUnreserved(raw[..|raw| - 1]);
    }
  }

  /** The validation loop builds the normal components as it checks them. */
  method ValidateLoop(raw: RawPath) returns (r: Result<Path, PathError>)
    ensures r == ValidatePath(raw)
  {
    if raw == [] || raw[0].RootDir? { return Err(NotRelative); }
    var normalized: Path := [];
    var text := true;
    for n := 0 to |raw|
      invariant normalized == Names(raw[..n])
      invariant text <==> forall i | 0 <= i < n :: !raw[i].NonUtf8?
      invariant Refusal(raw[..n]).None?
    {
      assert raw[..n + 1][..n] == raw[..n];
      if Refused(raw[n]) { RefusalStays(raw, n + 1); }
      match raw[n]
      case Normal(name) =>
        if IsReserved(name) { return Err(Reserved); }
        normalized := normalized + [name];
      case NonUtf8(_) => normalized := normalized + [""]; text := false;
      case CurDir =>
      case _ => return Err(Escapes);
    }
    assert raw[..|raw|] == raw;
    if normalized == [] || |normalized| > MAX_ARTIFACT_PATH_COMPONENTS { return Err(BadLength); }
    if !text { return Err(NotText); }
    if TextBytes(normalized) > MAX_ARTIFACT_PATH_BYTES { return Err(BadLength); }
    return Ok(normalized);
  }

  function AsRaw(p: Path): RawPath {
    seq(|p|, i requires 0 <= i < |p| => Normal(p[i]))
  }

  /** A valid path is canonical: validating it again changes nothing. */
  lemma {:induction false} ValidIsCanonical(p: Path)
    ensures ValidatePath(AsRaw(p)).Ok? <==> ValidPath(p)
    ensures ValidPath(p) ==> ValidatePath(AsRaw(p)) == Ok(p)
  {
    NamesOfRaw(p);
  }

  lemma {:induction false} NamesOfRaw(p: Path)
    ensures Names(AsRaw(p)) == p
  {
    if p != [] {
      var n := |p| - 1;
      NamesOfRaw(p[..n]);
      assert AsRaw(p)[..n] == AsRaw(p[..n]);
      assert p == p[..n] + [p[n]];
    }
  }

  /** The directories of a path down to a depth. */
  function Above(p: Path, depth: nat): set<Path> {
    set n | 0 < n < depth && n < |p| :: p[..n]
  }

  /** All the directories a file needs. */
  function Parents(p: Path): set<Path> { Above(p, |p|) }

  /** One path is the other or an ancestor directory of it. */
  predicate Under(p: Path, ancestor: Path) { ancestor <= p }
}
