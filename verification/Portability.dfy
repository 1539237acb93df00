/** Collisions of tracked paths on a file system that folds case. */
module Portability {
  import opened ArtifactPaths

  type Fold = string -> string

  /** A place in the folded tree: the folded parent directory and the folded name. */
  datatype Node = Node(parent: Path, name: string)

  datatype Violation =
    | CasefoldCollision(spellings: set<string>, involved: set<Path>)
    | FileDirectoryCollision(involved: set<Path>)

  function Folded(fold: Fold, p: Path): Path {
    seq(|p|, i requires 0 <= i < |p| => fold(p[i]))
  }

  function NodeAt(fold: Fold, p: Path, i: nat): Node
    requires i < |p|
  {
    Node(Folded(fold, p)[..i], fold(p[i]))
  }

  function Elements(paths: seq<Path>): set<Path> {
    set p | p in paths
  }

  // ----- What the scan should report -----

  function Spellings(fold: Fold, paths: set<Path>, node: Node): set<string> {
    set p, i | p in paths && 0 <= i < |p| && NodeAt(fold, p, i) == node :: p[i]
  }

  function Involved(fold: Fold, paths: set<Path>, node: Node): set<Path> {
    set p, i | p in paths && 0 <= i < |p| && NodeAt(fold, p, i) == node :: p
  }

  function SameFile(fold: Fold, paths: set<Path>, folded: Path): set<Path> {
    set p | p in paths && Folded(fold, p) == folded
  }

  function Inside(fold: Fold, paths: set<Path>, folded: Path): set<Path> {
    set p | p in paths && folded < Folded(fold, p)
  }

  ghost predicate IsCasefold(fold: Fold, paths: set<Path>, v: Violation) {
    exists node :: |Spellings(fold, paths, node)| >= 2
      && v == CasefoldCollision(Spellings(fold, paths, node), Involved(fold, paths, node))
  }

  ghost predicate IsFileDirectory(fold: Fold, paths: set<Path>, v: Violation) {
    exists f | f in paths :: Inside(fold, paths, Folded(fold, f)) != {}
      && v == FileDirectoryCollision(SameFile(fold, paths, Folded(fold, f)) + Inside(fold, paths, Folded(fold, f)))
  }

  // ----- The dictionaries -----

  type Nodes = map<Node, map<string, set<Path>>>
  type Index = map<Path, set<Path>>

  function AddTo<K>(m: map<K, set<Path>>, k: K, p: Path): map<K, set<Path>> {
    m[k := (if k in m then m[k] else {}) + {p}]
  }

  function AddNode(nodes: Nodes, node: Node, name: string, p: Path): Nodes {
    nodes[node := AddTo(if node in nodes then nodes[node] else map[], name, p)]
  }

  predicate Holds<K>(m: map<K, set<Path>>, k: K, p: Path) {
    k in m && p in m[k]
  }

  predicate HoldsNode(nodes: Nodes, node: Node, name: string, p: Path) {
    node in nodes && Holds(nodes[node], name, p)
  }

  /** No entry is empty, so an entry is there exactly when it holds something. */
  ghost predicate Tight<K(!new)>(m: map<K, set<Path>>) {
    forall k | k in m :: m[k] != {}
  }

  ghost predicate TightNodes(nodes: Nodes) {
    forall node | node in nodes :: nodes[node] != map[] && Tight(nodes[node])
  }

  lemma {:induction false} AddNodeMeaning(nodes: Nodes, node: Node, name: string, p: Path)
    requires TightNodes(nodes)
    ensures TightNodes(AddNode(nodes, node, name, p))
    ensures forall n, c, q :: HoldsNode(AddNode(nodes, node, name, p), n, c, q) <==>
              HoldsNode(nodes, n, c, q) || (n == node && c == name && q == p)
  {
    var after := AddNode(nodes, node, name, p);
    assert name in after[node];
  }

  ghost predicate UsesNode(fold: Fold, p: Path, m: nat, node: Node, name: string) {
    exists i | 0 <= i < m && i < |p| :: NodeAt(fold, p, i) == node && p[i] == name
  }

  function PrefixAt(fold: Fold, p: Path, i: nat): Path
    requires i < |p|
  {
    Folded(fold, p)[..i + 1]
  }

  ghost predicate UsesPrefix(fold: Fold, p: Path, m: nat, prefix: Path) {
    exists i | 0 <= i < m && i < |p| :: PrefixAt(fold, p, i) == prefix
  }

  lemma {:induction false} AddToMeaning(m: Index, k: Path, p: Path)
    ensures forall n, q :: Holds(AddTo(m, k, p), n, q) <==> Holds(m, n, q) || (n == k && q == p)
    ensures Tight(m) ==> Tight(AddTo(m, k, p))
  {
  }

  /** The inner loop: every component of one path. */
  method AddComponents(fold: Fold, p: Path, nodes0: Nodes, prefixes0: Index) returns (nodes: Nodes, prefixes: Index)
    requires TightNodes(nodes0)
    ensures TightNodes(nodes)
    ensures forall n, c, q :: HoldsNode(nodes, n, c, q) <==>
            HoldsNode(nodes0, n, c, q) || (q == p && UsesNode(fold, p, |p|, n, c))
    ensures forall k, q :: Holds(prefixes, k, q) <==> Holds(prefixes0, k, q) || (q == p && UsesPrefix(fold, p, |p|, k))
  {
    nodes, prefixes := nodes0, prefixes0;
    for i := 0 to |p|
      invariant TightNodes(nodes)
      invariant forall n, c, q :: HoldsNode(nodes, n, c, q) <==>
                HoldsNode(nodes0, n, c, q) || (q == p && UsesNode(fold, p, i, n, c))
      invariant forall k, q :: Holds(prefixes, k, q) <==>
                Holds(prefixes0, k, q) || (q == p && UsesPrefix(fold, p, i, k))
    {
      AddNodeMeaning(nodes, NodeAt(fold, p, i), p[i], p);
      UsesStep(fold, p, i);
      nodes := AddNode(nodes, NodeAt(fold, p, i), p[i], p);
      AddToMeaning(prefixes, PrefixAt(fold, p, i), p);
      prefixes := AddTo(prefixes, PrefixAt(fold, p, i), p);
    }
  }

  lemma {:induction false} UsesStep(fold: Fold, p: Path, i: nat)
    requires i < |p|
    ensures forall n, c :: UsesNode(fold, p, i + 1, n, c) <==>
            UsesNode(fold, p, i, n, c) || (NodeAt(fold, p, i) == n && p[i] == c)
    ensures forall k :: UsesPrefix(fold, p, i + 1, k) <==> UsesPrefix(fold, p, i, k) || PrefixAt(fold, p, i) == k
  {
    forall k ensures UsesPrefix(fold, p, i + 1, k) <==> UsesPrefix(fold, p, i, k) || PrefixAt(fold, p, i) == k {
      if UsesPrefix(fold, p, i, k) {
        var j :| 0 <= j < i && PrefixAt(fold, p, j) == k;
        assert j < i + 1;
      }
      if UsesPrefix(fold, p, i + 1, k) {
        var j :| 0 <= j < i + 1 && PrefixAt(fold, p, j) == k;
        assert j < i || j == i;
      }
    }
  }

  /** What the three dictionaries hold once the given paths are entered. */
  ghost predicate Entered(fold: Fold, paths: set<Path>, nodes: Nodes, prefixes: Index, files: Index) {
    && TightNodes(nodes) && Tight(files)
    && (forall n, c, q :: HoldsNode(nodes, n, c, q) <==> q in paths && UsesNode(fold, q, |q|, n, c))
    && (forall k, q :: Holds(prefixes, k, q) <==> q in paths && UsesPrefix(fold, q, |q|, k))
    && (forall k, q :: Holds(files, k, q) <==> q in paths && Folded(fold, q) == k)
  }

  method Fill(fold: Fold, paths: seq<Path>) returns (nodes: Nodes, prefixes: Index, files: Index)
    ensures Entered(fold, Elements(paths), nodes, prefixes, files)
  {
    nodes, prefixes, files := map[], map[], map[];
    for n := 0 to |paths|
      invariant Entered(fold, Elements(paths[..n]), nodes, prefixes, files)
    {
      var p := paths[n];
      AddToMeaning(files, Folded(fold, p), p);
      files := AddTo(files, Folded(fold, p), p);
      nodes, prefixes := AddComponents(fold, p, nodes, prefixes);
      assert paths[..n + 1] == paths[..n] + [p];
      assert Elements(paths[..n + 1]) == Elements(paths[..n]) + {p};
    }
    assert paths[..|paths|] == paths;
  }

  // ----- Reporting -----

  lemma {:induction false} NodeEntry(fold: Fold, paths: set<Path>, nodes: Nodes, prefixes: Index, files: Index,
      node: Node)
    requires Entered(fold, paths, nodes, prefixes, files)
    ensures node in nodes ==> nodes[node].Keys == Spellings(fold, paths, node)
    ensures node in nodes ==> Collected(nodes[node]) == Involved(fold, paths, node)
    ensures node !in nodes ==> Spellings(fold, paths, node) == {}
  {
    forall c, q | q in paths && UsesNode(fold, q, |q|, node, c) ensures HoldsNode(nodes, node, c, q) {}
    forall q, i | q in paths && 0 <= i < |q| && NodeAt(fold, q, i) == node ensures HoldsNode(nodes, node, q[i], q) {
      assert UsesNode(fold, q, |q|, node, q[i]);
    }
    if node in nodes {
      forall c | c in nodes[node] ensures c in Spellings(fold, paths, node) {
        var q :| q in nodes[node][c];
        assert HoldsNode(nodes, node, c, q);
        var i :| 0 <= i < |q| && NodeAt(fold, q, i) == node && q[i] == c;
      }
      forall q | q in Collected(nodes[node]) ensures q in Involved(fold, paths, node) {
        var c :| c in nodes[node] && q in nodes[node][c];
        assert HoldsNode(nodes, node, c, q);
        var i :| 0 <= i < |q| && NodeAt(fold, q, i) == node && q[i] == c;
      }
    }
  }

  function Collected(variants: map<string, set<Path>>): set<Path> {
    set c, q | c in variants && q in variants[c] :: q
  }

  method CasefoldViolations(nodes: Nodes) returns (r: set<Violation>)
    ensures forall v :: v in r <==> exists node | node in nodes :: NodeReports(nodes, node, v)
  {
    r := {};
    var remaining := nodes.Keys;
    while remaining != {}
      invariant remaining <= nodes.Keys
      invariant forall v :: v in r <==> exists node | node in nodes && node !in remaining :: NodeReports(nodes, node, v)
      decreases |remaining|
    {
      var node :| node in remaining;
      var variants := nodes[node];
      if |variants| >= 2 {
        r := r + {CasefoldCollision(variants.Keys, Collected(variants))};
      }
      remaining := remaining - {node};
    }
  }

  ghost predicate NodeReports(nodes: Nodes, node: Node, v: Violation)
    requires node in nodes
  {
    |nodes[node].Keys| >= 2 && v == CasefoldCollision(nodes[node].Keys, Collected(nodes[node]))
  }

  ghost predicate FileReports(prefixes: Index, files: Index, k: Path, v: Violation)
    requires k in files
  {
    var inside := (if k in prefixes then prefixes[k] else {}) - files[k];
    inside != {} && v == FileDirectoryCollision(files[k] + inside)
  }

  method FileViolations(prefixes: Index, files: Index) returns (r: set<Violation>)
    ensures forall v :: v in r <==> exists k | k in files :: FileReports(prefixes, files, k, v)
  {
    r := {};
    var remaining := files.Keys;
    while remaining != {}
      invariant remaining <= files.Keys
      invariant forall v :: v in r <==> exists k | k in files && k !in remaining :: FileReports(prefixes, files, k, v)
      decreases |remaining|
    {
      var k :| k in remaining;
      var inside := (if k in prefixes then prefixes[k] else {}) - files[k];
      if inside != {} {
        r := r + {FileDirectoryCollision(files[k] + inside)};
      }
      remaining := remaining - {k};
    }
  }

  lemma {:induction false} FileEntry(fold: Fold, paths: set<Path>, nodes: Nodes, prefixes: Index, files: Index, f: Path)
    requires Entered(fold, paths, nodes, prefixes, files) && f in paths && f != []
    ensures var k := Folded(fold, f);
      && k in files && files[k] == SameFile(fold, paths, k)
      && (if k in prefixes then prefixes[k] else {}) - files[k] == Inside(fold, paths, k)
  {
    var k := Folded(fold, f);
    assert Holds(files, k, f);
    forall q ensures q in files[k] <==> q in SameFile(fold, paths, k) {
      assert Holds(files, k, q) <==> q in paths && Folded(fold, q) == k;
    }
    var under := if k in prefixes then prefixes[k] else {};
    forall q ensures q in under - files[k] <==> q in Inside(fold, paths, k) {
      assert q in under <==> Holds(prefixes, k, q);
      PrefixIsUsed(fold, q, k);
      assert Holds(files, k, q) <==> q in paths && Folded(fold, q) == k;
    }
  }

  lemma {:induction false} PrefixIsUsed(fold: Fold, q: Path, k: Path)
    requires k != []
    ensures UsesPrefix(fold, q, |q|, k) <==> k <= Folded(fold, q)
  {
    if k <= Folded(fold, q) {
      assert PrefixAt(fold, q, |k| - 1) == k;
    }
  }

  /** The scan reports exactly the collisions there are. */
  method ComponentCollisions(fold: Fold, paths: seq<Path>) returns (r: set<Violation>)
    requires forall p | p in paths :: p != []
    ensures forall v :: v in r <==> IsCasefold(fold, Elements(paths), v) || IsFileDirectory(fold, Elements(paths), v)
    ensures r == {} <==> InjectiveOnPrefixes(fold, Elements(paths)) && NoFileIsDirectory(fold, Elements(paths))
  {
    SilentIff(fold, Elements(paths));
    var nodes, prefixes, files := Fill(fold, paths);
    var names := CasefoldViolations(nodes);
    var dirs := FileViolations(prefixes, files);
    CasefoldExact(fold, Elements(paths), nodes, prefixes, files);
    FileDirectoryExact(fold, Elements(paths), nodes, prefixes, files);
    return names + dirs;
  }

  lemma {:induction false} CasefoldExact(fold: Fold, paths: set<Path>, nodes: Nodes, prefixes: Index, files: Index)
    requires Entered(fold, paths, nodes, prefixes, files)
    ensures forall v :: (exists node | node in nodes :: NodeReports(nodes, node, v)) <==> IsCasefold(fold, paths, v)
  {
    forall v ensures (exists node | node in nodes :: NodeReports(nodes, node, v)) <==> IsCasefold(fold, paths, v) {
      if node :| node in nodes && NodeReports(nodes, node, v) {
        NodeEntry(fold, paths, nodes, prefixes, files, node);
      }
      if IsCasefold(fold, paths, v) {
        var node :| |Spellings(fold, paths, node)| >= 2 &&
          v == CasefoldCollision(Spellings(fold, paths, node), Involved(fold, paths, node));
        NodeEntry(fold, paths, nodes, prefixes, files, node);
        assert NodeReports(nodes, node, v);
      }
    }
  }

  lemma {:induction false} FileDirectoryExact(fold: Fold, paths: set<Path>, nodes: Nodes, prefixes: Index, files: Index)
    requires Entered(fold, paths, nodes, prefixes, files) && forall p | p in paths :: p != []
    ensures forall v :: (exists k | k in files :: FileReports(prefixes, files, k, v)) <==>
            IsFileDirectory(fold, paths, v)
  {
    forall v
      ensures (exists k | k in files :: FileReports(prefixes, files, k, v)) <==> IsFileDirectory(fold, paths, v)
    {
      if k :| k in files && FileReports(prefixes, files, k, v) {
        var f :| f in files[k];
        assert Holds(files, k, f);
        FileEntry(fold, paths, nodes, prefixes, files, f);
      }
      if IsFileDirectory(fold, paths, v) {
        var f :| f in paths && Inside(fold, paths, Folded(fold, f)) != {}
          && v == FileDirectoryCollision(SameFile(fold, paths, Folded(fold, f)) + Inside(fold, paths, Folded(fold, f)));
        FileEntry(fold, paths, nodes, prefixes, files, f);
        assert FileReports(prefixes, files, Folded(fold, f), v);
      }
    }
  }

  // ----- When nothing is reported -----

  /** Folding keeps every two different directories and files apart. */
  ghost predicate InjectiveOnPrefixes(fold: Fold, paths: set<Path>) {
    forall p, q, i, j | p in paths && q in paths && 0 <= i <= |p| && 0 <= j <= |q| ::
      Folded(fold, p[..i]) == Folded(fold, q[..j]) ==> p[..i] == q[..j]
  }

  /** No file's folded path is a directory of another's. */
  ghost predicate NoFileIsDirectory(fold: Fold, paths: set<Path>) {
    forall f, p | f in paths && p in paths :: !(Folded(fold, f) < Folded(fold, p))
  }

  lemma {:induction false} TwoMembers<T>(s: set<T>, a: T, b: T)
    requires a in s && b in s && a != b
    ensures |s| >= 2
  {
    assert |s - {a}| == |s| - 1;
    assert b in s - {a};
    assert |s - {a} - {b}| == |s - {a}| - 1;
  }

  lemma {:induction false} TwoDifferent<T>(s: set<T>) returns (a: T, b: T)
    requires |s| >= 2
    ensures a in s && b in s && a != b
  {
    a :| a in s;
    assert |s - {a}| == |s| - 1;
    b :| b in s - {a};
  }

  lemma {:induction false} FoldedPrefix(fold: Fold, p: Path, i: nat)
    requires i <= |p|
    ensures Folded(fold, p[..i]) == Folded(fold, p)[..i]
  {
  }

  /** One spelling at every node keeps equal-folding prefixes equal, component by component. */
  lemma {:induction false} OneSpellingInjects(fold: Fold, paths: set<Path>, p: Path, q: Path, i: nat)
    requires p in paths && q in paths && i <= |p| && i <= |q| && Folded(fold, p[..i]) == Folded(fold, q[..i])
    requires forall node :: |Spellings(fold, paths, node)| < 2
    ensures p[..i] == q[..i]
  {
    if i > 0 {
      var k := i - 1;
      FoldedPrefix(fold, p, i);
      FoldedPrefix(fold, q, i);
      FoldedPrefix(fold, p, k);
      FoldedPrefix(fold, q, k);
      assert Folded(fold, p)[..k] == Folded(fold, p)[..i][..k];
      assert Folded(fold, q)[..k] == Folded(fold, q)[..i][..k];
      OneSpellingInjects(fold, paths, p, q, k);
      assert Folded(fold, p)[..i][k] == fold(p[k]) && Folded(fold, q)[..i][k] == fold(q[k]);
      SameNodeSameName(fold, paths, p, q, k);
      assert p[..i] == p[..k] + [p[k]] && q[..i] == q[..k] + [q[k]];
    }
  }

  lemma {:induction false} SameNodeSameName(fold: Fold, paths: set<Path>, p: Path, q: Path, k: nat)
    requires p in paths && q in paths && k < |p| && k < |q| && NodeAt(fold, p, k) == NodeAt(fold, q, k)
    requires |Spellings(fold, paths, NodeAt(fold, p, k))| < 2
    ensures p[k] == q[k]
  {
    var s := Spellings(fold, paths, NodeAt(fold, p, k));
    assert p[k] in s && q[k] in s;
    if p[k] != q[k] { TwoMembers(s, p[k], q[k]); }
  }

  lemma {:induction false} InjectiveIffOneSpelling(fold: Fold, paths: set<Path>)
    ensures InjectiveOnPrefixes(fold, paths) <==> forall node :: |Spellings(fold, paths, node)| < 2
  {
    if forall node :: |Spellings(fold, paths, node)| < 2 {
      forall p, q, i, j | p in paths && q in paths && 0 <= i <= |p| && 0 <= j <= |q| &&
        Folded(fold, p[..i]) == Folded(fold, q[..j])
        ensures p[..i] == q[..j]
      {
        assert |Folded(fold, p[..i])| == i && |Folded(fold, q[..j])| == j;
        OneSpellingInjects(fold, paths, p, q, i);
      }
    }
    if InjectiveOnPrefixes(fold, paths) {
      forall node ensures |Spellings(fold, paths, node)| < 2 {
        if |Spellings(fold, paths, node)| >= 2 {
          var a, b := TwoDifferent(Spellings(fold, paths, node));
          InjectiveOneName(fold, paths, node, a, b);
        }
      }
    }
  }

  lemma {:induction false} SameNodeSameFold(fold: Fold, p: Path, i: nat, q: Path, j: nat)
    requires i < |p| && j < |q| && NodeAt(fold, p, i) == NodeAt(fold, q, j)
    ensures i == j && Folded(fold, p[..i + 1]) == Folded(fold, q[..i + 1])
  {
    assert |Folded(fold, p)[..i]| == i && |Folded(fold, q)[..j]| == j;
    FoldedPrefix(fold, p, i + 1);
    FoldedPrefix(fold, q, i + 1);
    assert Folded(fold, p)[..i + 1] == Folded(fold, p)[..i] + [fold(p[i])];
    assert Folded(fold, q)[..i + 1] == Folded(fold, q)[..i] + [fold(q[i])];
  }

  lemma {:induction false} InjectiveOneName(fold: Fold, paths: set<Path>, node: Node, a: string, b: string)
    requires InjectiveOnPrefixes(fold, paths) && a in Spellings(fold, paths, node) && b in Spellings(fold, paths, node)
    ensures a == b
  {
    var p, i :| p in paths && 0 <= i < |p| && NodeAt(fold, p, i) == node && p[i] == a;
    var q, j :| q in paths && 0 <= j < |q| && NodeAt(fold, q, j) == node && q[j] == b;
    SameNodeSameFold(fold, p, i, q, j);
    assert p[..i + 1] == q[..i + 1];
    assert p[..i + 1][i] == a && q[..i + 1][i] == b;
  }

  /** The scan is silent iff folding is injective on all path prefixes and no folded file is another's directory. */
  lemma {:induction false} SilentIff(fold: Fold, paths: set<Path>)
    ensures (forall v :: !IsCasefold(fold, paths, v) && !IsFileDirectory(fold, paths, v)) <==>
            InjectiveOnPrefixes(fold, paths) && NoFileIsDirectory(fold, paths)
  {
    InjectiveIffOneSpelling(fold, paths);
    CasefoldSilentIff(fold, paths);
    FileDirectorySilentIff(fold, paths);
  }

  lemma {:induction false} CasefoldSilentIff(fold: Fold, paths: set<Path>)
    ensures (forall v :: !IsCasefold(fold, paths, v)) <==> forall node :: |Spellings(fold, paths, node)| < 2
  {
    if !(forall node :: |Spellings(fold, paths, node)| < 2) {
      var node :| |Spellings(fold, paths, node)| >= 2;
      assert IsCasefold(fold, paths, CasefoldCollision(Spellings(fold, paths, node), Involved(fold, paths, node)));
    }
  }

  lemma {:induction false} FileDirectorySilentIff(fold: Fold, paths: set<Path>)
    ensures (forall v :: !IsFileDirectory(fold, paths, v)) <==> NoFileIsDirectory(fold, paths)
  {
    if !NoFileIsDirectory(fold, paths) {
      var f, p :| f in paths && p in paths && Folded(fold, f) < Folded(fold, p);
      var k := Folded(fold, f);
      assert p in Inside(fold, paths, k);
      assert IsFileDirectory(fold, paths, FileDirectoryCollision(SameFile(fold, paths, k) + Inside(fold, paths, k)));
    }
    if v :| IsFileDirectory(fold, paths, v) {
      var f :| f in paths && Inside(fold, paths, Folded(fold, f)) != {};
      var p :| p in Inside(fold, paths, Folded(fold, f));
    }
  }
}
