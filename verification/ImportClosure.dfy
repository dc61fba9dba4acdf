/**
 The files handed to the code generator (internal/cmd/genforward/main.go): the files of the bound services
 and everything they import, collected depth first so that every import precedes its importer.
 */
module ImportClosure {
  import opened Common

  type Path = string

  /** Every known file with the files it imports. */
  type Graph = map<Path, seq<Path>>

  /** Descriptors are linked: an imported file is a known file. */
  ghost predicate Linked(g: Graph) {
    forall f, i :: f in g && 0 <= i < |g[f]| ==> g[f][i] in g
  }

  predicate Imports(g: Graph, f: Path, f': Path) {
    f in g && f' in g[f]
  }

  ghost predicate LinkAt(g: Graph, chain: seq<Path>, i: int)
    requires 0 <= i < |chain| - 1
  {
    Imports(g, chain[i], chain[i + 1])
  }

  ghost predicate IsChain(g: Graph, chain: seq<Path>) {
    && |chain| > 0
    && (forall i :: 0 <= i < |chain| ==> chain[i] in g)
    && forall i :: 0 <= i < |chain| - 1 ==> LinkAt(g, chain, i)
  }

  ghost predicate ChainFrom(g: Graph, chain: seq<Path>, f: Path, f': Path) {
    IsChain(g, chain) && chain[0] == f && chain[|chain| - 1] == f'
  }

  /** f' is f, or is imported by f directly or through other files. */
  ghost predicate Reaches(g: Graph, f: Path, f': Path) {
    exists chain :: ChainFrom(g, chain, f, f')
  }

  /** f' is imported by f directly or through other files. */
  ghost predicate DependsOn(g: Graph, f: Path, f': Path) {
    exists next :: Imports(g, f, next) && Reaches(g, next, f')
  }

  ghost predicate Acyclic(g: Graph) {
    forall f :: f in g ==> !DependsOn(g, f, f)
  }

  lemma ReachesItself(g: Graph, f: Path)
    requires f in g
    ensures Reaches(g, f, f)
  {
    assert ChainFrom(g, [f], f, f);
  }

  lemma ReachesTransitively(g: Graph, f: Path, f': Path, f'': Path)
    requires Reaches(g, f, f') && Reaches(g, f', f'')
    ensures Reaches(g, f, f'')
  {
    var first :| ChainFrom(g, first, f, f');
    var second :| ChainFrom(g, second, f', f'');
    var chain := first + second[1..];
    forall i | 0 <= i < |chain| - 1
      ensures LinkAt(g, chain, i)
    {
      if i < |first| - 1 {
        assert LinkAt(g, first, i);
        assert chain[i] == first[i] && chain[i + 1] == first[i + 1];
      } else {
        var n := i - (|first| - 1);
        assert LinkAt(g, second, n);
        assert chain[i] == second[n] && chain[i + 1] == second[n + 1];
      }
    }
    assert chain[|chain| - 1] == f'' by {
      if |second| > 1 {
        assert chain[|chain| - 1] == second[|second| - 1];
      }
    }
    assert ChainFrom(g, chain, f, f'');
  }

  lemma ImportReaches(g: Graph, f: Path, f': Path)
    requires Imports(g, f, f') && f' in g
    ensures Reaches(g, f, f')
  {
    assert LinkAt(g, [f, f'], 0);
    assert ChainFrom(g, [f, f'], f, f');
  }

  /** Whatever depends on a file depends on what that file imports. */
  lemma DependsOnImports(g: Graph, f: Path, f': Path, f'': Path)
    requires (f == f' || DependsOn(g, f, f')) && Imports(g, f', f'') && f'' in g
    ensures DependsOn(g, f, f'')
  {
    if f == f' {
      ReachesItself(g, f'');
    } else {
      var next :| Imports(g, f, next) && Reaches(g, next, f');
      ImportReaches(g, f', f'');
      ReachesTransitively(g, next, f', f'');
    }
  }

  /** A list in which every import of a file stands before the file, and no file stands twice. */
  ghost predicate TopologicalOrder(g: Graph, files: seq<Path>) {
    && Distinct(files)
    && (forall i :: 0 <= i < |files| ==> files[i] in g)
    && forall i, f :: 0 <= i < |files| && Imports(g, files[i], f) ==> f in files[..i]
  }

  /** The map of visited files, shared by every call of the recursion. */
  class Seen {
    var paths: set<Path>
    constructor ()
      ensures paths == {}
    {
      paths := {};
    }
  }

  /** Files marked but not yet listed: those whose imports are being collected. */
  ghost function Unfinished(seen: set<Path>, files: seq<Path>): set<Path> {
    seen - Elements(files)
  }

  /** What holds of the list and the marks whenever a file is about to be visited. */
  ghost predicate Collecting(g: Graph, seen: set<Path>, files: seq<Path>) {
    TopologicalOrder(g, files) && Elements(files) <= seen <= g.Keys
  }

  /** What visiting one more file adds. */
  ghost predicate Collected(g: Graph, file: Path, seen: set<Path>, files: seq<Path>, seen': set<Path>, files': seq<Path>) {
    && Collecting(g, seen', files')
    && files <= files' && seen <= seen'
    && Unfinished(seen', files') == Unfinished(seen, files)
    && forall f :: f in files'[|files|..] ==> Reaches(g, file, f)
  }

  method AppendFileAndImports(g: Graph, files: seq<Path>, seen: Seen, file: Path) returns (files': seq<Path>)
    requires Linked(g) && Acyclic(g) && file in g
    requires Collecting(g, seen.paths, files)
    requires forall f :: f in Unfinished(seen.paths, files) ==> DependsOn(g, f, file)
    modifies seen
    ensures Collected(g, file, old(seen.paths), files, seen.paths, files') && file in files'
    decreases |g.Keys - seen.paths|
  {
    ghost var before := seen.paths;
    if file in seen.paths {
      SeenIsListed(g, before, files, file);
      return files;
    }
    seen.paths := seen.paths + {file};
    files' := files;
    for i := 0 to |g[file]|
      invariant ImportsCollected(g, file, i, before + {file}, files, seen.paths, files')
    {
      var imported := g[file][i];
      AboutToImport(g, file, i, before, files, seen.paths, files');
      ghost var was, had := seen.paths, files';
      files' := AppendFileAndImports(g, files', seen, imported);
      OneMoreImport(g, file, i, before + {file}, files, was, had, seen.paths, files');
    }
    AllImported(g, file, before, files, seen.paths, files');
    files' := files' + [file];
  }

  /** A marked file that is not listed would depend on itself. */
  lemma SeenIsListed(g: Graph, seen: set<Path>, files: seq<Path>, file: Path)
    requires Acyclic(g) && file in g && Collecting(g, seen, files) && file in seen
    requires forall f :: f in Unfinished(seen, files) ==> DependsOn(g, f, file)
    ensures file in files && Collected(g, file, seen, files, seen, files)
  {
    assert !DependsOn(g, file, file);
    assert file !in Unfinished(seen, files);
    assert files[|files|..] == [];
  }

  /** The first i imports of a marked file are listed; apart from that nothing unfinished was added or finished. */
  ghost predicate ImportsCollected(g: Graph, file: Path, i: nat, marked: set<Path>, files: seq<Path>, seen: set<Path>, files': seq<Path>) {
    && file in g && i <= |g[file]|
    && Collecting(g, seen, files')
    && files <= files' && marked <= seen
    && Unfinished(seen, files') == Unfinished(marked, files)
    && (forall f :: f in files'[|files|..] ==> Reaches(g, file, f))
    && forall n :: 0 <= n < i ==> g[file][n] in files'
  }

  lemma AboutToImport(g: Graph, file: Path, i: nat, before: set<Path>, files: seq<Path>, seen: set<Path>, files': seq<Path>)
    requires Linked(g) && file in g && i < |g[file]| && file !in before && Collecting(g, before, files)
    requires forall f :: f in Unfinished(before, files) ==> DependsOn(g, f, file)
    requires ImportsCollected(g, file, i, before + {file}, files, seen, files')
    ensures g[file][i] in g
    ensures forall f :: f in Unfinished(seen, files') ==> DependsOn(g, f, g[file][i])
    ensures |g.Keys - seen| < |g.Keys - before|
  {
    var imported := g[file][i];
    assert Imports(g, file, imported);
    forall f | f in Unfinished(seen, files') ensures DependsOn(g, f, imported) {
      assert f in Unfinished(before + {file}, files);
      assert f == file || f in Unfinished(before, files);
      DependsOnImports(g, f, file, imported);
    }
    FewerLeft(g.Keys, before, seen, file);
  }

  lemma FewerLeft(all: set<Path>, before: set<Path>, seen: set<Path>, file: Path)
    requires file in all && file !in before && before + {file} <= seen
    ensures |all - seen| < |all - before|
  {
    var left := all - before;
    assert all - seen <= left - {file};
    assert left - {file} == (all - seen) + ((left - {file}) - (all - seen));
    assert |left - {file}| == |left| - 1;
  }

  lemma OneMoreImport(g: Graph, file: Path, i: nat, marked: set<Path>, files: seq<Path>, was: set<Path>, had: seq<Path>, seen: set<Path>, files': seq<Path>)
    requires Linked(g) && file in g && i < |g[file]| && ImportsCollected(g, file, i, marked, files, was, had)
    requires Collected(g, g[file][i], was, had, seen, files') && g[file][i] in files'
    ensures ImportsCollected(g, file, i + 1, marked, files, seen, files')
  {
    var imported := g[file][i];
    assert Imports(g, file, imported);
    ImportReaches(g, file, imported);
    forall f | f in files'[|files|..] ensures Reaches(g, file, f) {
      var n :| |files| <= n < |files'| && files'[n] == f;
      if n < |had| {
        assert had[n] == f && f in had[|files|..];
      } else {
        assert f in files'[|had|..];
        ReachesTransitively(g, file, imported, f);
      }
    }
    forall n | 0 <= n < i + 1 ensures g[file][n] in files' {
      if n < i {
        var m :| 0 <= m < |had| && had[m] == g[file][n];
        assert files'[m] == g[file][n];
      }
    }
  }

  /** Once all its imports are listed, the file itself may be. */
  lemma AllImported(g: Graph, file: Path, before: set<Path>, files: seq<Path>, seen: set<Path>, files': seq<Path>)
    requires file in g && file !in before && Collecting(g, before, files)
    requires ImportsCollected(g, file, |g[file]|, before + {file}, files, seen, files')
    ensures Collected(g, file, before, files, seen, files' + [file])
  {
    var listed := files' + [file];
    assert file in Unfinished(before + {file}, files);
    assert file !in files';
    assert Elements(listed) == Elements(files') + {file};
    ReachesItself(g, file);
    forall f | f in listed[|files|..] ensures Reaches(g, file, f) {
      assert listed[|files|..] == files'[|files|..] + [file];
    }
    forall i, f | 0 <= i < |listed| && Imports(g, listed[i], f) ensures f in listed[..i] {
      if i < |files'| {
        assert listed[..i] == files'[..i];
      } else {
        assert listed[..i] == files';
      }
    }
    assert Unfinished(seen, listed) == Unfinished(before, files) by {
      assert Unfinished(seen, listed) == Unfinished(before + {file}, files) - {file};
    }
  }

  /** One of the first i roots is this file or imports it, directly or through other files. */
  ghost predicate RootReaches(g: Graph, roots: seq<Path>, i: nat, f: Path) {
    exists n :: 0 <= n < i && n < |roots| && Reaches(g, roots[n], f)
  }

  /** The files of the request: those of the roots, in the given order, and whatever they import. */
  method CodeGeneratorRequest(g: Graph, roots: seq<Path>) returns (files: seq<Path>)
    requires Linked(g) && Acyclic(g)
    requires forall i :: 0 <= i < |roots| ==> roots[i] in g
    ensures TopologicalOrder(g, files)
    ensures forall f :: f in files <==> RootReaches(g, roots, |roots|, f)
  {
    var seen := new Seen();
    files := [];
    for i := 0 to |roots|
      invariant RootsCollected(g, roots, i, seen.paths, files)
    {
      ghost var had := files;
      files := AppendFileAndImports(g, files, seen, roots[i]);
      OneMoreRoot(g, roots, i, had, files);
    }
    ListedExactlyReachable(g, roots, seen.paths, files);
  }

  /** The first i roots are listed, nothing is unfinished, and only what they reach is listed. */
  ghost predicate RootsCollected(g: Graph, roots: seq<Path>, i: nat, seen: set<Path>, files: seq<Path>) {
    Collecting(g, seen, files) && Unfinished(seen, files) == {} && RootsListed(g, roots, i, files)
  }

  ghost predicate RootsListed(g: Graph, roots: seq<Path>, i: nat, files: seq<Path>) {
    && i <= |roots|
    && (forall n :: 0 <= n < i ==> roots[n] in files)
    && forall f :: f in files ==> RootReaches(g, roots, i, f)
  }

  lemma OneMoreRoot(g: Graph, roots: seq<Path>, i: nat, had: seq<Path>, files: seq<Path>)
    requires i < |roots| && RootsListed(g, roots, i, had)
    requires had <= files && roots[i] in files && forall f :: f in files[|had|..] ==> Reaches(g, roots[i], f)
    ensures RootsListed(g, roots, i + 1, files)
  {
    forall n | 0 <= n < i + 1 ensures roots[n] in files {
      if n < i {
        ListGrows(had, files, roots[n]);
      }
    }
    forall f | f in files ensures RootReaches(g, roots, i + 1, f) {
      RootOfListed(g, roots, i, had, files, f);
    }
  }

  lemma ListGrows(had: seq<Path>, files: seq<Path>, f: Path)
    requires had <= files && f in had
    ensures f in files
  {
    var m :| 0 <= m < |had| && had[m] == f;
    assert files[m] == f;
  }

  lemma RootOfListed(g: Graph, roots: seq<Path>, i: nat, had: seq<Path>, files: seq<Path>, f: Path)
    requires i < |roots| && had <= files && f in files
    requires f in had ==> RootReaches(g, roots, i, f)
    requires f in files[|had|..] ==> Reaches(g, roots[i], f)
    ensures RootReaches(g, roots, i + 1, f)
  {
    var m :| 0 <= m < |files| && files[m] == f;
    if m < |had| {
      assert had[m] == f;
      var n :| 0 <= n < i && Reaches(g, roots[n], f);
    } else {
      assert files[|had|..][m - |had|] == f;
    }
  }

  /** A topological order holds every file reachable from one it holds. */
  lemma {:induction false} OrderIsClosed(g: Graph, files: seq<Path>, chain: seq<Path>)
    requires TopologicalOrder(g, files) && IsChain(g, chain) && chain[0] in files
    ensures chain[|chain| - 1] in files
    decreases |chain|
  {
    if |chain| > 1 {
      var i :| 0 <= i < |files| && files[i] == chain[0];
      assert LinkAt(g, chain, 0);
      assert chain[1] in files[..i];
      var rest := chain[1..];
      forall n | 0 <= n < |rest| - 1 ensures LinkAt(g, rest, n) {
        assert LinkAt(g, chain, n + 1);
      }
      OrderIsClosed(g, files, rest);
    }
  }

  lemma ListedExactlyReachable(g: Graph, roots: seq<Path>, seen: set<Path>, files: seq<Path>)
    requires RootsCollected(g, roots, |roots|, seen, files)
    ensures forall f :: f in files <==> RootReaches(g, roots, |roots|, f)
  {
    forall f | RootReaches(g, roots, |roots|, f) ensures f in files {
      var i :| 0 <= i < |roots| && Reaches(g, roots[i], f);
      var chain :| ChainFrom(g, chain, roots[i], f);
      OrderIsClosed(g, files, chain);
    }
  }

  /** Acyclicity is needed: a list ordered this way holds no file that depends on itself. */
  lemma OrderForbidsCycles(g: Graph, files: seq<Path>, f: Path)
    requires TopologicalOrder(g, files) && f in files
    ensures !DependsOn(g, f, f)
  {
    var i :| 0 <= i < |files| && files[i] == f;
    if DependsOn(g, f, f) {
      var next :| Imports(g, f, next) && Reaches(g, next, f);
      var chain :| ChainFrom(g, chain, next, f);
      PrefixIsOrdered(g, files, i);
      OrderIsClosed(g, files[..i], chain);
    }
  }

  lemma PrefixIsOrdered(g: Graph, files: seq<Path>, i: nat)
    requires TopologicalOrder(g, files) && i <= |files|
    ensures TopologicalOrder(g, files[..i])
  {
    var prefix := files[..i];
    forall n, f | 0 <= n < i && Imports(g, prefix[n], f) ensures f in prefix[..n] {
      assert prefix[..n] == files[..n] && prefix[n] == files[n];
    }
  }
}
