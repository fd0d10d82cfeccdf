/**
 Moving an asset's files into formula storage and writing them out again. The formula kernel may be
 reliable or answer anything; what the wallet records and checks is the wallet's own.
 */
module FormulaStorage {
  import opened Prelude

  // ----- file trees -----

  type RelPath = seq<string>

  /** What a path is; symbolic links and special files are skipped by the walk. */
  datatype Node = Dir | File(content: Bytes) | Link | Special

  datatype Item = Item(path: RelPath, node: Node)

  /** A file, a folder with everything below it, or nothing there. */
  datatype Source = OneFile(name: string, content: Bytes) | Folder(name: string, items: seq<Item>) | Absent

  ghost predicate IsDirIn(items: seq<Item>, p: RelPath) {
    exists i :: 0 <= i < |items| && items[i] == Item(p, Dir)
  }

  /** Distinct non-empty paths, and every proper prefix of one is a directory of the tree. */
  ghost predicate IsTree(items: seq<Item>) {
    && (forall i, j :: 0 <= i < j < |items| ==> items[i].path != items[j].path)
    && (forall i :: 0 <= i < |items| ==> items[i].path != [])
    && (forall i, n :: 0 <= i < |items| && 0 < n < |items[i].path| ==> IsDirIn(items, items[i].path[..n]))
  }

  function FilesOf(items: seq<Item>): (r: seq<Item>)
    ensures forall x :: x in r <==> x in items && x.node.File?
  {
    if items == [] then []
    else
      assert items == [items[0]] + items[1..];
      (if items[0].node.File? then [items[0]] else []) + FilesOf(items[1..])
  }

  function DirsOf(items: seq<Item>): (r: seq<RelPath>)
    ensures forall p :: p in r <==> Item(p, Dir) in items
  {
    if items == [] then []
    else
      assert items == [items[0]] + items[1..];
      (if items[0].node.Dir? then [items[0].path] else []) + DirsOf(items[1..])
  }

  /** The files and directories a source contributes. */
  function SourceFiles(s: Source): seq<Item> {
    match s
    case OneFile(name, content) => [Item([name], File(content))]
    case Folder(_, items) => FilesOf(items)
    case Absent => []
  }

  function SourceDirs(s: Source): seq<RelPath> { if s.Folder? then DirsOf(s.items) else [] }

  function SourceName(s: Source): string { if s.Absent? then "" else s.name }

  // ----- the formula kernel -----

  datatype Formula = Formula(id: string, contentSha: string, size: nat, verified: bool)

  datatype Written = Written(content: Bytes, sha: string, bytes: nat)

  class FormulaKernel {
    const hash: Bytes -> string
    const reliable: bool
    var store: map<string, Bytes>

    constructor (hash: Bytes -> string, reliable: bool)
      ensures this.hash == hash && this.reliable == reliable && store == map[]
    {
      this.hash, this.reliable, store := hash, reliable, map[];
    }

    /** A reliable kernel keeps the bytes under the id it returns, reports them truly and never drops any. */
    method PutPath(content: Bytes) returns (r: Option<Formula>)
      modifies this
      ensures forall id :: id in old(store) ==> id in store && store[id] == old(store)[id]
      ensures reliable ==>
                && r.Some? && r.value.contentSha == hash(content) && r.value.size == |content| && r.value.verified
                && r.value.id in store && store[r.value.id] == content
    {
      if reliable {
        NewId(store.Keys);
        var id :| id !in store || store[id] == content;
        store := store[id := content];
        r := Some(Formula(id, hash(content), |content|, true));
      } else {
        r := *;
      }
    }

    /** Hash and count are those of the bytes written; a reliable kernel writes the bytes it keeps. */
    method Materialize(id: string) returns (r: Option<Written>)
      ensures r.Some? ==> r.value.sha == hash(r.value.content) && r.value.bytes == |r.value.content|
      ensures reliable && id in store ==> r.Some? && r.value.content == store[id]
    {
      if reliable {
        if id !in store { return None; }
        r := Some(Written(store[id], hash(store[id]), |store[id]|));
      } else {
        var fails: bool, content: Bytes := *, *;
        if fails { return None; }
        r := Some(Written(content, hash(content), |content|));
      }
    }
  }

  function Xs(n: nat): string { if n == 0 then "" else "x" + Xs(n - 1) }

  lemma XsLength(n: nat)
    ensures |Xs(n)| == n
  {
  }

  /** Some string is outside any finite set. */
  lemma {:induction false} NewId(ids: set<string>)
    ensures exists id: string :: id !in ids
  {
    var n := Longer(ids);
    XsLength(n);
    assert Xs(n) !in ids;
  }

  lemma {:induction false} Longer(ids: set<string>) returns (n: nat)
    ensures forall id :: id in ids ==> |id| < n
  {
    if ids == {} {
      n := 0;
    } else {
      var x :| x in ids;
      var m := Longer(ids - {x});
      n := if |x| < m then m else |x| + 1;
      assert forall id :: id in ids ==> id == x || id in ids - {x};
    }
  }

  // ----- the wallet's record -----

  datatype FileRow = FileRow(rel: RelPath, formulaId: string, contentSha: string, size: nat)

  datatype SetRow = SetRow(isFile: bool, name: string, directories: seq<RelPath>, itemCount: nat, logicalBytes: nat,
                           created: int, updated: int)

  datatype StoreError =
    | NoAsset | NotController | NotFound | NoRegularFiles | KernelFailed | HashMismatch | SizeMismatch
    | VerificationFailed | NoVerifiedSet | BadItemCount | ReconstructedMismatch

  datatype Exported = Exported(tree: map<RelPath, Node>, bytes: nat, count: nat)

  function SumSizes(rows: seq<FileRow>): nat { if rows == [] then 0 else rows[0].size + SumSizes(rows[1..]) }

  /** The row of a file: its path, its hash and its size. */
  ghost predicate RowFor(hash: Bytes -> string, row: FileRow, f: Item) {
    f.node.File? && row.rel == f.path && row.contentSha == hash(f.node.content) && row.size == |f.node.content|
  }

  ghost predicate RowsFor(hash: Bytes -> string, rows: seq<FileRow>, files: seq<Item>) {
    |rows| == |files| && forall i :: 0 <= i < |rows| ==> RowFor(hash, rows[i], files[i])
  }

  /** The record describes the source: kind, name, directories and one row for each file in order. */
  ghost predicate Records(hash: Bytes -> string, record: SetRow, rows: seq<FileRow>, s: Source) {
    && !s.Absent? && record.isFile == s.OneFile? && record.name == SourceName(s) && record.directories == SourceDirs(s)
    && RowsFor(hash, rows, SourceFiles(s)) && record.itemCount == |rows| && record.logicalBytes == SumSizes(rows)
  }

  /** The kernel keeps every recorded file's bytes. */
  ghost predicate Keeps(store: map<string, Bytes>, rows: seq<FileRow>, files: seq<Item>)
    requires |rows| == |files|
  {
    forall i :: 0 <= i < |rows| ==> rows[i].formulaId in store && files[i].node == File(store[rows[i].formulaId])
  }

  ghost predicate NoEmptyFile(s: Source) { forall f :: f in SourceFiles(s) ==> f.node.File? && f.node.content != [] }

  /** What makes a source storable: it exists, has a regular file, and none of its files is empty. */
  ghost predicate Storable(s: Source) { !s.Absent? && SourceFiles(s) != [] && NoEmptyFile(s) }

  lemma {:induction false} SourceFilesAre(s: Source)
    ensures forall i :: 0 <= i < |SourceFiles(s)| ==> SourceFiles(s)[i].node.File?
    ensures NoEmptyFile(s) <==> forall i :: 0 <= i < |SourceFiles(s)| ==> SourceFiles(s)[i].node.content != []
  {
    var files := SourceFiles(s);
    assert forall f :: f in files ==> f.node.File?;
    assert forall i :: 0 <= i < |files| ==> files[i] in files;
  }

  /** int(formula.size or -1) != size: a reported size of zero never matches. */
  predicate SizeMatches(reported: nat, actual: nat) { (if reported == 0 then -1 else reported as int) == actual }

  // ----- the tree an export writes -----

  /** Where the files go: a single file is the destination itself, a folder becomes a folder of its name in it. */
  function Base(s: Source): RelPath { if s.Folder? && s.name != "" then [s.name] else [] }

  function Placed(s: Source): seq<Item> {
    if s.OneFile? then [Item([], File(s.content))] else SourceFiles(s)
  }

  function Prefixes(p: RelPath): set<RelPath> { set k | 0 <= k <= |p| :: p[..k] }

  /** mkdir(parents=True, exist_ok=True) */
  function MakeDir(tree: map<RelPath, Node>, p: RelPath): map<RelPath, Node> {
    map q | q in tree.Keys + Prefixes(p) :: if q in Prefixes(p) then Dir else tree[q]
  }

  ghost predicate DirsMade(tree: map<RelPath, Node>, base: RelPath, dirs: seq<RelPath>) {
    && (forall q :: q in tree <==> q <= base || UnderDir(base, dirs, q))
    && (forall q :: q in tree ==> tree[q] == Dir)
  }

  ghost predicate UnderDir(base: RelPath, dirs: seq<RelPath>, q: RelPath) {
    exists j :: 0 <= j < |dirs| && q <= base + dirs[j]
  }

  /** The files lie at their places with the hashes of the originals, and nothing else changed. */
  ghost predicate FilesWritten(hash: Bytes -> string, before: map<RelPath, Node>, after: map<RelPath, Node>,
                               base: RelPath, originals: seq<Item>)
  {
    && (forall i :: 0 <= i < |originals| ==>
          && base + originals[i].path in after && after[base + originals[i].path].File? && originals[i].node.File?
          && hash(after[base + originals[i].path].content) == hash(originals[i].node.content))
    && (forall q :: q in after <==> q in before || AtFile(base, originals, q))
    && (forall q :: q in before && !AtFile(base, originals, q) ==> after[q] == before[q])
  }

  ghost predicate AtFile(base: RelPath, originals: seq<Item>, q: RelPath) {
    exists i :: 0 <= i < |originals| && q == base + originals[i].path
  }

  /** No written file has other bytes than its original with the same hash. */
  ghost predicate NoCollision(hash: Bytes -> string, tree: map<RelPath, Node>, base: RelPath, originals: seq<Item>) {
    forall i :: 0 <= i < |originals| && base + originals[i].path in tree ==>
      var written, original := tree[base + originals[i].path], originals[i].node;
      written.File? && original.File? && hash(written.content) == hash(original.content) ==> written == original
  }

  /** A path of the export is above the folder, or is that of a file or directory of the source. */
  ghost predicate Expected(s: Source, q: RelPath) {
    match s
    case OneFile(_, _) => q == []
    case Folder(_, items) => q <= Base(s) || exists i :: 0 <= i < |items| && FromItem(s, items[i], q)
    case Absent => false
  }

  ghost predicate FromItem(s: Source, x: Item, q: RelPath) { (x.node.File? || x.node.Dir?) && q == Base(s) + x.path }

  /** The paths and directories of the source, and files hashing like its files. */
  ghost predicate Rebuilt(hash: Bytes -> string, tree: map<RelPath, Node>, s: Source) {
    && (forall q :: q in tree <==> Expected(s, q))
    && (s.Folder? ==> forall q :: q <= Base(s) ==> tree[q] == Dir)
    && (s.Folder? ==> forall i :: 0 <= i < |s.items| && s.items[i].node.Dir? ==>
          Base(s) + s.items[i].path in tree && tree[Base(s) + s.items[i].path] == Dir)
    && (forall i :: 0 <= i < |Placed(s)| ==>
          var q := Base(s) + Placed(s)[i].path;
          q in tree && tree[q].File? && Placed(s)[i].node.File?
          && hash(tree[q].content) == hash(Placed(s)[i].node.content))
  }

  /** The very files and directories of the source, and nothing else. */
  ghost predicate Exact(tree: map<RelPath, Node>, s: Source) {
    && (forall q :: q in tree <==> Expected(s, q))
    && (s.Folder? ==> forall q :: q <= Base(s) ==> tree[q] == Dir)
    && (s.OneFile? ==> tree == map[[] := File(s.content)])
    && (s.Folder? ==> forall i :: 0 <= i < |s.items| && (s.items[i].node.File? || s.items[i].node.Dir?) ==>
          Base(s) + s.items[i].path in tree && tree[Base(s) + s.items[i].path] == s.items[i].node)
  }

  /** Every original lies at its place with its own bytes. */
  ghost predicate SameContents(tree: map<RelPath, Node>, base: RelPath, originals: seq<Item>) {
    forall i :: 0 <= i < |originals| ==>
      base + originals[i].path in tree && tree[base + originals[i].path] == originals[i].node
  }

  lemma NoCollisionSame(hash: Bytes -> string, before: map<RelPath, Node>, after: map<RelPath, Node>, base: RelPath,
                        originals: seq<Item>)
    requires FilesWritten(hash, before, after, base, originals) && NoCollision(hash, after, base, originals)
    ensures SameContents(after, base, originals)
  {
  }

  /** The tree after writing the contents at the places of their rows, in order. */
  function PutFiles(start: map<RelPath, Node>, base: RelPath, rows: seq<FileRow>, contents: seq<Bytes>)
    : map<RelPath, Node>
    requires |contents| <= |rows|
  {
    if contents == [] then start
    else
      var last := |contents| - 1;
      PutFiles(start, base, rows, contents[..last])[base + rows[last].rel := File(contents[last])]
  }

  function SumLengths(contents: seq<Bytes>): nat {
    if contents == [] then 0 else SumLengths(contents[..|contents| - 1]) + |contents[|contents| - 1]|
  }

  ghost predicate HashesMatch(hash: Bytes -> string, rows: seq<FileRow>, contents: seq<Bytes>) {
    |contents| <= |rows| && forall i :: 0 <= i < |contents| ==> hash(contents[i]) == rows[i].contentSha
  }

  ghost predicate ContentsAre(originals: seq<Item>, contents: seq<Bytes>) {
    |contents| <= |originals| && forall i :: 0 <= i < |contents| ==> originals[i].node == File(contents[i])
  }

  ghost predicate DistinctPaths(originals: seq<Item>) {
    forall j, k :: 0 <= j < k < |originals| ==> originals[j].path != originals[k].path
  }

  /** The contents lie at the places of the first originals. */
  ghost predicate LaidFiles(tree: map<RelPath, Node>, base: RelPath, originals: seq<Item>, contents: seq<Bytes>) {
    && |contents| <= |originals|
    && forall i :: 0 <= i < |contents| ==>
         base + originals[i].path in tree && tree[base + originals[i].path] == File(contents[i])
  }

  /** Outside the places of the originals the tree is as it was at the start. */
  ghost predicate LaidOnly(start: map<RelPath, Node>, tree: map<RelPath, Node>, base: RelPath, originals: seq<Item>) {
    && (forall q :: q in tree <==> q in start || AtFile(base, originals, q))
    && (forall q :: q in start && !AtFile(base, originals, q) ==> tree[q] == start[q])
  }

  ghost predicate Laid(start: map<RelPath, Node>, tree: map<RelPath, Node>, base: RelPath, originals: seq<Item>,
                       contents: seq<Bytes>)
  {
    LaidFiles(tree, base, originals, contents) && LaidOnly(start, tree, base, originals[..|contents|])
  }

  lemma {:induction false} AtOneMore(base: RelPath, originals: seq<Item>, i: nat, q: RelPath)
    requires i < |originals|
    ensures AtFile(base, originals[..i + 1], q) <==> AtFile(base, originals[..i], q) || q == base + originals[i].path
  {
    var some, more := originals[..i], originals[..i + 1];
    assert forall j :: 0 <= j < i ==> more[j] == some[j];
    assert more[i] == originals[i];
  }

  lemma {:induction false} NewPlace(base: RelPath, originals: seq<Item>, i: nat)
    requires i < |originals| && DistinctPaths(originals)
    ensures forall j :: 0 <= j < i ==> base + originals[j].path != base + originals[i].path
  {
    forall j | 0 <= j < i ensures base + originals[j].path != base + originals[i].path {
      SamePlace(base, originals[j].path, originals[i].path);
    }
  }

  lemma {:induction false} OneMoreLaid(before: map<RelPath, Node>, base: RelPath, originals: seq<Item>,
                                       contents: seq<Bytes>, content: Bytes)
    requires |contents| < |originals| && LaidFiles(before, base, originals, contents) && DistinctPaths(originals)
    ensures LaidFiles(before[base + originals[|contents|].path := File(content)], base, originals, contents + [content])
  {
    NewPlace(base, originals, |contents|);
    var more := contents + [content];
    assert forall j :: 0 <= j < |contents| ==> more[j] == contents[j];
  }

  lemma {:induction false} OneMoreOnly(start: map<RelPath, Node>, before: map<RelPath, Node>, base: RelPath,
                                       originals: seq<Item>, i: nat, node: Node)
    requires i < |originals| && LaidOnly(start, before, base, originals[..i])
    ensures LaidOnly(start, before[base + originals[i].path := node], base, originals[..i + 1])
  {
    forall q ensures AtFile(base, originals[..i + 1], q)
                     <==> AtFile(base, originals[..i], q) || q == base + originals[i].path
    {
      AtOneMore(base, originals, i, q);
    }
  }

  lemma {:induction false} OneMoreFile(start: map<RelPath, Node>, before: map<RelPath, Node>, base: RelPath,
                                       originals: seq<Item>, contents: seq<Bytes>, content: Bytes)
    requires |contents| < |originals| && Laid(start, before, base, originals, contents) && DistinctPaths(originals)
    ensures Laid(start, before[base + originals[|contents|].path := File(content)], base, originals,
                 contents + [content])
  {
    OneMoreLaid(before, base, originals, contents, content);
    OneMoreOnly(start, before, base, originals, |contents|, File(content));
  }

  lemma {:induction false} PutFilesLaid(start: map<RelPath, Node>, base: RelPath, originals: seq<Item>,
                                        rows: seq<FileRow>, contents: seq<Bytes>)
    requires |contents| <= |rows| == |originals| && DistinctPaths(originals)
    requires forall i :: 0 <= i < |rows| ==> rows[i].rel == originals[i].path
    ensures Laid(start, PutFiles(start, base, rows, contents), base, originals, contents)
  {
    if contents != [] {
      var last := |contents| - 1;
      PutFilesLaid(start, base, originals, rows, contents[..last]);
      OneMoreFile(start, PutFiles(start, base, rows, contents[..last]), base, originals, contents[..last],
                  contents[last]);
      assert contents[..last] + [contents[last]] == contents;
    }
  }

  lemma {:induction false} LengthsAreSizes(hash: Bytes -> string, originals: seq<Item>, rows: seq<FileRow>,
                                           contents: seq<Bytes>)
    requires RowsFor(hash, rows, originals) && ContentsAre(originals, contents)
    ensures SumLengths(contents) == SumSizes(rows[..|contents|])
  {
    if contents == [] {
      assert rows[..0] == [];
    } else {
      var last := |contents| - 1;
      LengthsAreSizes(hash, originals, rows, contents[..last]);
      SumSizesSnoc(rows, last);
      assert RowFor(hash, rows[last], originals[last]);
    }
  }

  /**
   With all rows written every file is there with its hash; with the originals' bytes, so are its bytes and their sum.
   */
  lemma {:induction false} AllRows(hash: Bytes -> string, start: map<RelPath, Node>, base: RelPath,
                                   originals: seq<Item>, rows: seq<FileRow>, contents: seq<Bytes>)
    requires RowsFor(hash, rows, originals) && HashesMatch(hash, rows, contents) && |contents| == |rows|
    requires forall j, k :: 0 <= j < k < |rows| ==> rows[j].rel != rows[k].rel
    ensures var tree := PutFiles(start, base, rows, contents);
            && FilesWritten(hash, start, tree, base, originals)
            && (SameContents(tree, base, originals) ==> SumLengths(contents) == SumSizes(rows))
            && (ContentsAre(originals, contents) ==> SameContents(tree, base, originals))
  {
    var tree := PutFiles(start, base, rows, contents);
    forall j | 0 <= j < |rows| ensures rows[j].rel == originals[j].path { assert RowFor(hash, rows[j], originals[j]); }
    PutFilesLaid(start, base, originals, rows, contents);
    assert originals[..|contents|] == originals && rows[..|contents|] == rows;
    if SameContents(tree, base, originals) {
      assert forall i :: 0 <= i < |contents| ==> originals[i].node == tree[base + originals[i].path];
      LengthsAreSizes(hash, originals, rows, contents);
    }
  }

  lemma KeptMatches(hash: Bytes -> string, store: map<string, Bytes>, rows: seq<FileRow>, originals: seq<Item>, i: nat)
    requires i < |rows| && RowsFor(hash, rows, originals)
    ensures Keeps(store, rows, originals) ==>
              && rows[i].formulaId in store && hash(store[rows[i].formulaId]) == rows[i].contentSha
              && originals[i].node == File(store[rows[i].formulaId])
  {
  }

  lemma {:induction false} SamePlace(base: RelPath, p: RelPath, q: RelPath)
    ensures base + p == base + q <==> p == q
  {
    assert (base + p)[|base|..] == p && (base + q)[|base|..] == q;
  }

  lemma {:induction false} SumSizesSnoc(rows: seq<FileRow>, i: nat)
    requires i < |rows|
    ensures SumSizes(rows[..i + 1]) == SumSizes(rows[..i]) + rows[i].size
  {
    if i > 0 {
      assert rows[..i + 1][1..] == rows[1..][..i] && rows[..i][1..] == rows[1..][..i - 1];
      SumSizesSnoc(rows[1..], i - 1);
    }
  }

  lemma {:induction false} PrefixesOf(p: RelPath)
    ensures forall q :: q in Prefixes(p) <==> q <= p
  {
    forall q | q <= p ensures q in Prefixes(p) { assert q == p[..|q|]; }
  }

  lemma {:induction false} OneMoreDir(tree: map<RelPath, Node>, base: RelPath, dirs: seq<RelPath>, i: nat)
    requires i < |dirs| && DirsMade(tree, base, dirs[..i])
    ensures DirsMade(MakeDir(tree, base + dirs[i]), base, dirs[..i + 1])
  {
    PrefixesOf(base + dirs[i]);
    var some, more := dirs[..i], dirs[..i + 1];
    forall q ensures UnderDir(base, more, q) <==> UnderDir(base, some, q) || q <= base + dirs[i] {
      if UnderDir(base, some, q) {
        var j :| 0 <= j < i && q <= base + some[j];
        assert more[j] == some[j];
      }
      if UnderDir(base, more, q) {
        var j :| 0 <= j < i + 1 && q <= base + more[j];
        if j < i { assert some[j] == more[j]; }
      }
      assert more[i] == dirs[i];
    }
  }

  lemma {:induction false} FirstDir(base: RelPath)
    ensures DirsMade(MakeDir(map[], base), base, [])
  {
    PrefixesOf(base);
  }

  lemma FilesDistinct(items: seq<Item>)
    requires forall i, j :: 0 <= i < j < |items| ==> items[i].path != items[j].path
    ensures forall i, j :: 0 <= i < j < |FilesOf(items)| ==> FilesOf(items)[i].path != FilesOf(items)[j].path
  {
  }

  /** No path is both a file and a directory. */
  lemma FileOrDir(items: seq<Item>, x: Item, y: Item)
    requires IsTree(items) && x in items && y in items && x.node.Dir? && y.node.File?
    ensures x.path != y.path
  {
  }

  /** Every directory made lies above the folder or is a directory of the source. */
  lemma {:induction false} DirsAreExpected(s: Source, tree: map<RelPath, Node>, q: RelPath)
    requires s.Folder? && IsTree(s.items) && DirsMade(tree, Base(s), DirsOf(s.items))
    ensures q in tree
            <==> q <= Base(s) || exists i :: 0 <= i < |s.items| && s.items[i].node.Dir?
                                   && q == Base(s) + s.items[i].path
  {
    var base, dirs := Base(s), DirsOf(s.items);
    if q in tree && !(q <= base) {
      var j :| 0 <= j < |dirs| && q <= base + dirs[j];
      assert dirs[j] in dirs;
      assert Item(dirs[j], Dir) in s.items;
      var i :| 0 <= i < |s.items| && s.items[i] == Item(dirs[j], Dir);
      var n := |q| - |base|;
      BelowBase(base, dirs[j], q);
      if n < |dirs[j]| {
        assert IsDirIn(s.items, s.items[i].path[..n]);
        var k :| 0 <= k < |s.items| && s.items[k] == Item(dirs[j][..n], Dir);
        assert q == base + s.items[k].path;
      } else {
        assert q == base + s.items[i].path;
      }
    }
    if i :| 0 <= i < |s.items| && s.items[i].node.Dir? && q == base + s.items[i].path {
      assert s.items[i] == Item(s.items[i].path, Dir);
      assert s.items[i].path in dirs;
      var j :| 0 <= j < |dirs| && dirs[j] == s.items[i].path;
      assert q <= base + dirs[j];
    }
  }

  lemma BelowBase(base: RelPath, d: RelPath, q: RelPath)
    requires q <= base + d && !(q <= base)
    ensures |base| < |q| <= |base| + |d| && q == base + d[..|q| - |base|]
  {
  }

  lemma {:induction false} FileIsNotDir(s: Source, i: nat, j: nat)
    requires s.Folder? && IsTree(s.items) && i < |s.items| && s.items[i].node.Dir? && j < |FilesOf(s.items)|
    ensures Base(s) + s.items[i].path != Base(s) + FilesOf(s.items)[j].path
  {
    var f := FilesOf(s.items)[j];
    assert f in FilesOf(s.items);
    assert f in s.items && s.items[i] in s.items;
    SamePlace(Base(s), s.items[i].path, f.path);
    FileOrDir(s.items, s.items[i], f);
  }

  lemma FileIsBelow(s: Source, j: nat)
    requires s.Folder? && IsTree(s.items) && j < |FilesOf(s.items)|
    ensures !(Base(s) + FilesOf(s.items)[j].path <= Base(s))
  {
  }

  ghost predicate AtItem(s: Source, q: RelPath, node: Node -> bool)
    requires s.Folder?
  {
    exists i :: 0 <= i < |s.items| && node(s.items[i].node) && q == Base(s) + s.items[i].path
  }

  lemma {:induction false} FilesAreItems(s: Source, q: RelPath)
    requires s.Folder?
    ensures AtFile(Base(s), FilesOf(s.items), q) <==> AtItem(s, q, (n: Node) => n.File?)
  {
    var files := FilesOf(s.items);
    if AtFile(Base(s), files, q) {
      var j :| 0 <= j < |files| && q == Base(s) + files[j].path;
      assert files[j] in files;
      var i :| 0 <= i < |s.items| && s.items[i] == files[j];
    }
    if i :| 0 <= i < |s.items| && s.items[i].node.File? && q == Base(s) + s.items[i].path {
      assert s.items[i] in files;
      var j :| 0 <= j < |files| && files[j] == s.items[i];
    }
  }

  lemma {:induction false} FolderPaths(hash: Bytes -> string, made: map<RelPath, Node>, tree: map<RelPath, Node>,
                                       s: Source, q: RelPath)
    requires s.Folder? && IsTree(s.items) && DirsMade(made, Base(s), DirsOf(s.items))
    requires FilesWritten(hash, made, tree, Base(s), FilesOf(s.items))
    ensures q in tree <==> Expected(s, q)
  {
    DirsAreExpected(s, made, q);
    FilesAreItems(s, q);
    PlacesOfItems(s, q);
  }

  lemma {:induction false} PlacesOfItems(s: Source, q: RelPath)
    requires s.Folder?
    ensures Expected(s, q) <==> q <= Base(s) || AtItem(s, q, (n: Node) => n.Dir?) || AtItem(s, q, (n: Node) => n.File?)
  {
    if i :| 0 <= i < |s.items| && (s.items[i].node.Dir? || s.items[i].node.File?) && q == Base(s) + s.items[i].path {
      assert FromItem(s, s.items[i], q);
    }
  }

  /** Directories survive the writing of files. */
  lemma {:induction false} DirsStay(hash: Bytes -> string, made: map<RelPath, Node>, tree: map<RelPath, Node>,
                                    s: Source, q: RelPath)
    requires s.Folder? && IsTree(s.items) && DirsMade(made, Base(s), DirsOf(s.items))
    requires FilesWritten(hash, made, tree, Base(s), FilesOf(s.items))
    requires q <= Base(s) || AtItem(s, q, (n: Node) => n.Dir?)
    ensures q in tree && tree[q] == Dir
  {
    var files := FilesOf(s.items);
    DirsAreExpected(s, made, q);
    if q <= Base(s) {
      forall j | 0 <= j < |files| ensures q != Base(s) + files[j].path { FileIsBelow(s, j); }
    } else {
      var i :| 0 <= i < |s.items| && s.items[i].node.Dir? && q == Base(s) + s.items[i].path;
      forall j | 0 <= j < |files| ensures q != Base(s) + files[j].path { FileIsNotDir(s, i, j); }
    }
  }

  lemma {:induction false} FilesStay(tree: map<RelPath, Node>, s: Source, i: nat)
    requires s.Folder? && SameContents(tree, Base(s), Placed(s)) && i < |s.items| && s.items[i].node.File?
    ensures Base(s) + s.items[i].path in tree && tree[Base(s) + s.items[i].path] == s.items[i].node
  {
    var files := FilesOf(s.items);
    assert s.items[i] in files;
    var j :| 0 <= j < |files| && files[j] == s.items[i];
    assert Placed(s)[j] == s.items[i];
  }

  lemma {:induction false} FolderRebuilt(hash: Bytes -> string, made: map<RelPath, Node>, tree: map<RelPath, Node>,
                                         s: Source)
    requires s.Folder? && IsTree(s.items) && DirsMade(made, Base(s), DirsOf(s.items))
    requires FilesWritten(hash, made, tree, Base(s), FilesOf(s.items))
    ensures Rebuilt(hash, tree, s)
    ensures SameContents(tree, Base(s), Placed(s)) ==> Exact(tree, s)
  {
    forall q ensures q in tree <==> Expected(s, q) { FolderPaths(hash, made, tree, s, q); }
    forall q | q <= Base(s) ensures q in tree && tree[q] == Dir { DirsStay(hash, made, tree, s, q); }
    forall i | 0 <= i < |s.items| && s.items[i].node.Dir?
      ensures Base(s) + s.items[i].path in tree && tree[Base(s) + s.items[i].path] == Dir
    {
      DirsStay(hash, made, tree, s, Base(s) + s.items[i].path);
    }
    if SameContents(tree, Base(s), Placed(s)) {
      forall i | 0 <= i < |s.items| && s.items[i].node.File?
        ensures Base(s) + s.items[i].path in tree && tree[Base(s) + s.items[i].path] == s.items[i].node
      {
        FilesStay(tree, s, i);
      }
    }
  }

  lemma {:induction false} OneFileRebuilt(hash: Bytes -> string, tree: map<RelPath, Node>, s: Source)
    requires s.OneFile? && FilesWritten(hash, map[], tree, [], Placed(s))
    ensures Rebuilt(hash, tree, s)
    ensures SameContents(tree, Base(s), Placed(s)) ==> Exact(tree, s)
  {
    var only := Placed(s)[0];
    assert Base(s) + only.path == [];
    forall q ensures q in tree <==> q == [] {
      if q in tree {
        var i :| 0 <= i < |Placed(s)| && q == [] + Placed(s)[i].path;
      }
      if q == [] { assert q == [] + Placed(s)[0].path; }
    }
  }

  /** A single file's row, told to go to the destination itself. */
  lemma {:induction false} SingleRow(hash: Bytes -> string, store: map<string, Bytes>, rows: seq<FileRow>, s: Source)
    requires s.OneFile? && |rows| == 1 && RowsFor(hash, rows, SourceFiles(s))
    ensures var target := [rows[0].(rel := [])];
            && RowsFor(hash, target, Placed(s)) && SumSizes(target) == SumSizes(rows)
            && (Keeps(store, rows, SourceFiles(s)) ==> Keeps(store, target, Placed(s)))
  {
    assert rows == [rows[0]] && RowFor(hash, rows[0], SourceFiles(s)[0]);
  }

  lemma {:induction false} DistinctRows(hash: Bytes -> string, rows: seq<FileRow>, s: Source)
    requires RowsFor(hash, rows, SourceFiles(s)) && (s.Folder? ==> IsTree(s.items))
    ensures forall i, j :: 0 <= i < j < |rows| ==> rows[i].rel != rows[j].rel
  {
    if s.Folder? { FilesDistinct(s.items); }
    forall i | 0 <= i < |rows| ensures rows[i].rel == SourceFiles(s)[i].path {
      assert RowFor(hash, rows[i], SourceFiles(s)[i]);
    }
  }

  class Wallet {
    const me: string
    const hash: Bytes -> string
    var controllers: map<string, string>
    var sets: map<string, SetRow>
    var files: map<string, seq<FileRow>>

    constructor (me: string, hash: Bytes -> string, controllers: map<string, string>)
      ensures this.me == me && this.hash == hash && this.controllers == controllers
      ensures sets == map[] && files == map[]
    {
      this.me, this.hash, this.controllers, sets, files := me, hash, controllers, map[], map[];
    }

    /** The walk over the files: one verified formula for each, or the first failure. */
    method PutAll(kernel: FormulaKernel, todo: seq<Item>) returns (r: Result<seq<FileRow>, StoreError>)
      requires kernel.hash == hash && forall i :: 0 <= i < |todo| ==> todo[i].node.File?
      modifies kernel
      ensures forall id :: id in old(kernel.store) ==> id in kernel.store && kernel.store[id] == old(kernel.store)[id]
      ensures r.Ok? ==> RowsFor(hash, r.value, todo) && forall i :: 0 <= i < |todo| ==> todo[i].node.content != []
      ensures kernel.reliable ==> (r.Ok? <==> forall i :: 0 <= i < |todo| ==> todo[i].node.content != [])
      ensures kernel.reliable && r.Ok? ==> Keeps(kernel.store, r.value, todo)
      ensures kernel.reliable && r.Err? ==> r.error == SizeMismatch
      ensures r.Err? ==> r.error in {KernelFailed, HashMismatch, SizeMismatch, VerificationFailed}
    {
      var records: seq<FileRow> := [];
      for i := 0 to |todo|
        invariant forall id :: id in old(kernel.store)
                    ==> id in kernel.store && kernel.store[id] == old(kernel.store)[id]
        invariant RowsFor(hash, records, todo[..i])
        invariant forall k :: 0 <= k < i ==> todo[k].node.content != []
        invariant kernel.reliable ==> Keeps(kernel.store, records, todo[..i])
      {
        var content := todo[i].node.content;
        var formula := kernel.PutPath(content);
        if formula.None? { return Err(KernelFailed); }
        if formula.value.contentSha != hash(content) { return Err(HashMismatch); }
        if !SizeMatches(formula.value.size, |content|) { return Err(SizeMismatch); }
        if !formula.value.verified { return Err(VerificationFailed); }
        assert todo[..i + 1] == todo[..i] + [todo[i]];
        records := records + [FileRow(todo[i].path, formula.value.id, hash(content), |content|)];
      }
      assert todo[..|todo|] == todo;
      r := Ok(records);
    }

    /** A failed add leaves every record as it was; a repeated one replaces the rows and keeps the creation time. */
    method AddAsset(kernel: FormulaKernel, objectId: string, s: Source, now: int)
      returns (r: Result<SetRow, StoreError>)
      requires kernel.hash == hash
      modifies this`sets, this`files, kernel
      ensures forall id :: id in old(kernel.store) ==> id in kernel.store && kernel.store[id] == old(kernel.store)[id]
      ensures r.Err? ==> sets == old(sets) && files == old(files)
      ensures r.Ok? ==>
                && objectId in controllers && controllers[objectId] == me && Storable(s)
                && objectId in files
                && sets == old(sets)[objectId := r.value] && files == old(files)[objectId := files[objectId]]
                && Records(hash, r.value, files[objectId], s)
                && r.value.created == (if objectId in old(sets) then old(sets)[objectId].created else now)
                && r.value.updated == now
      ensures kernel.reliable ==> (r.Ok? <==> objectId in controllers && controllers[objectId] == me && Storable(s))
      ensures r == Err(NoAsset) <==> objectId !in controllers
      ensures r == Err(NotController) <==> objectId in controllers && controllers[objectId] != me
      ensures r == Err(NotFound) <==> objectId in controllers && controllers[objectId] == me && s.Absent?
      ensures r == Err(NoRegularFiles)
              <==> && objectId in controllers && controllers[objectId] == me && s.Folder?
                   && forall x :: x in s.items ==> !x.node.File?
      ensures kernel.reliable && r.Ok? ==> Keeps(kernel.store, files[objectId], SourceFiles(s))
    {
      if objectId !in controllers { return Err(NoAsset); }
      if controllers[objectId] != me { return Err(NotController); }
      if s.Absent? { return Err(NotFound); }
      var todo := SourceFiles(s);
      if todo == [] { return Err(NoRegularFiles); }
      SourceFilesAre(s);
      var records := PutAll(kernel, todo);
      if records.Err? { return Err(records.error); }
      var rows := records.value;
      var created := if objectId in sets then sets[objectId].created else now;
      var row := SetRow(s.OneFile?, SourceName(s), SourceDirs(s), |rows|, SumSizes(rows), created, now);
      sets := sets[objectId := row];
      files := files[objectId := rows];
      r := Ok(row);
    }

    /** The files written under base, in order, on top of the directories; or the first failure. */
    method WriteFiles(kernel: FormulaKernel, tree: map<RelPath, Node>, base: RelPath, rows: seq<FileRow>,
                      ghost originals: seq<Item>) returns (r: Result<Exported, StoreError>)
      requires kernel.hash == hash && RowsFor(hash, rows, originals)
      requires forall i, j :: 0 <= i < j < |rows| ==> rows[i].rel != rows[j].rel
      ensures r.Ok? ==> FilesWritten(hash, tree, r.value.tree, base, originals)
      ensures r.Ok? ==> r.value.count == |rows|
      ensures r.Err? ==> r.error in {KernelFailed, ReconstructedMismatch}
      ensures r.Ok? && SameContents(r.value.tree, base, originals) ==> r.value.bytes == SumSizes(rows)
      ensures kernel.reliable && Keeps(kernel.store, rows, originals) ==>
                r.Ok? && SameContents(r.value.tree, base, originals)
    {
      var out: map<RelPath, Node>, total: nat := tree, 0;
      ghost var contents: seq<Bytes> := [];
      for i := 0 to |rows|
        invariant |contents| == i && HashesMatch(hash, rows, contents)
        invariant kernel.reliable && Keeps(kernel.store, rows, originals) ==> ContentsAre(originals, contents)
        invariant out == PutFiles(tree, base, rows, contents) && total == SumLengths(contents)
      {
        KeptMatches(hash, kernel.store, rows, originals, i);
        var written := kernel.Materialize(rows[i].formulaId);
        if written.None? { return Err(KernelFailed); }
        if written.value.sha != rows[i].contentSha { return Err(ReconstructedMismatch); }
        ghost var before := contents;
        contents := contents + [written.value.content];
        assert contents[..i] == before;
        out := out[base + rows[i].rel := File(written.value.content)];
        total := total + written.value.bytes;
      }
      AllRows(hash, tree, base, originals, rows, contents);
      r := Ok(Exported(out, total, |rows|));
    }

    /** The folder, its directories and then its files, in an empty destination. */
    method WriteFolder(kernel: FormulaKernel, row: SetRow, rows: seq<FileRow>, ghost s: Source)
      returns (r: Result<Exported, StoreError>)
      requires kernel.hash == hash && s.Folder? && IsTree(s.items) && Records(hash, row, rows, s)
      ensures r.Ok? ==> Rebuilt(hash, r.value.tree, s) && r.value.count == |rows|
      ensures r.Err? ==> r.error in {KernelFailed, ReconstructedMismatch}
      ensures r.Ok? && NoCollision(hash, r.value.tree, Base(s), Placed(s)) ==>
                Exact(r.value.tree, s) && r.value.bytes == row.logicalBytes
      ensures kernel.reliable && Keeps(kernel.store, rows, SourceFiles(s)) ==>
                r.Ok? && Exact(r.value.tree, s) && r.value.bytes == row.logicalBytes
    {
      DistinctRows(hash, rows, s);
      var base := if row.name == "" then [] else [row.name];
      var tree := MakeDir(map[], base);
      FirstDir(base);
      for i := 0 to |row.directories|
        invariant DirsMade(tree, base, row.directories[..i])
      {
        OneMoreDir(tree, base, row.directories, i);
        tree := MakeDir(tree, base + row.directories[i]);
      }
      assert row.directories[..|row.directories|] == row.directories;
      r := WriteFiles(kernel, tree, base, rows, SourceFiles(s));
      if r.Ok? {
        FolderRebuilt(hash, tree, r.value.tree, s);
        if NoCollision(hash, r.value.tree, base, Placed(s)) {
          NoCollisionSame(hash, tree, r.value.tree, base, Placed(s));
        }
      }
    }

    /** Reconstruction at an empty destination, whose paths the result's tree gives relative to it. */
    method Export(kernel: FormulaKernel, objectId: string, ghost s: Source) returns (r: Result<Exported, StoreError>)
      requires kernel.hash == hash
      requires objectId in sets ==>
                 objectId in files && Records(hash, sets[objectId], files[objectId], s)
                 && (s.Folder? ==> IsTree(s.items))
      ensures r == Err(NoVerifiedSet) <==> objectId !in sets
      ensures r == Err(NoAsset) <==> objectId in sets && objectId !in controllers
      ensures r == Err(NotController) <==> objectId in sets && objectId in controllers && controllers[objectId] != me
      ensures r.Ok? ==> Rebuilt(hash, r.value.tree, s) && r.value.count == sets[objectId].itemCount
      ensures r.Ok? && NoCollision(hash, r.value.tree, Base(s), Placed(s)) ==>
                Exact(r.value.tree, s) && r.value.bytes == sets[objectId].logicalBytes
      ensures objectId in sets && objectId in controllers && controllers[objectId] == me && kernel.reliable ==>
                Keeps(kernel.store, files[objectId], SourceFiles(s)) ==>
                  r.Ok? && Exact(r.value.tree, s) && r.value.bytes == sets[objectId].logicalBytes
    {
      if objectId !in sets { return Err(NoVerifiedSet); }
      if objectId !in controllers { return Err(NoAsset); }
      if controllers[objectId] != me { return Err(NotController); }
      var row, rows := sets[objectId], files[objectId];
      if row.isFile {
        if |rows| != 1 { return Err(BadItemCount); }
        var target := [rows[0].(rel := [])];
        SingleRow(hash, kernel.store, rows, s);
        r := WriteFiles(kernel, map[], [], target, Placed(s));
        if r.Ok? {
          OneFileRebuilt(hash, r.value.tree, s);
          if NoCollision(hash, r.value.tree, [], Placed(s)) {
            NoCollisionSame(hash, map[], r.value.tree, [], Placed(s));
          }
        }
      } else {
        r := WriteFolder(kernel, row, rows, s);
      }
    }
  }

  // ----- store and reconstruct -----

  /** How many bytes the files hold together. */
  ghost function FileBytes(items: seq<Item>): nat {
    if items == [] then 0
    else (if items[0].node.File? then |items[0].node.content| else 0) + FileBytes(items[1..])
  }

  lemma {:induction false} RowsSum(hash: Bytes -> string, rows: seq<FileRow>, files: seq<Item>)
    requires RowsFor(hash, rows, files)
    ensures SumSizes(rows) == FileBytes(files)
  {
    if rows != [] {
      assert RowFor(hash, rows[0], files[0]);
      assert forall i :: 0 <= i < |rows| - 1 ==> rows[1..][i] == rows[i + 1] && files[1..][i] == files[i + 1];
      assert RowsFor(hash, rows[1..], files[1..]) by {
        forall i | 0 <= i < |rows| - 1 ensures RowFor(hash, rows[1..][i], files[1..][i]) {
          assert RowFor(hash, rows[i + 1], files[i + 1]);
        }
      }
      RowsSum(hash, rows[1..], files[1..]);
    }
  }

  lemma {:induction false} BytesOfFiles(items: seq<Item>)
    ensures FileBytes(FilesOf(items)) == FileBytes(items)
  {
    if items != [] {
      BytesOfFiles(items[1..]);
      if items[0].node.File? { assert FilesOf(items)[1..] == FilesOf(items[1..]); }
      else { assert FilesOf(items) == FilesOf(items[1..]); }
    }
  }

  /** The tree is that file, or a folder of that name with just those files and directories at their paths. */
  ghost predicate IsSource(tree: map<RelPath, Node>, s: Source) {
    match s
    case OneFile(_, content) => tree == map[[] := File(content)]
    case Folder(name, items) =>
      var top: RelPath := if name == "" then [] else [name];
      && (forall q :: q in tree <==> q == [] || q == top || exists x :: x in items && ItemAt(top, x, q))
      && (forall q :: q == [] || q == top ==> q in tree && tree[q] == Dir)
      && (forall x, q :: x in items && ItemAt(top, x, q) ==> q in tree && tree[q] == x.node)
    case Absent => false
  }

  /** The path of a file or directory of the source. */
  ghost predicate ItemAt(top: RelPath, x: Item, q: RelPath) { (x.node.File? || x.node.Dir?) && q == top + x.path }

  lemma {:induction false} SourcePaths(s: Source, top: RelPath, q: RelPath)
    requires s.Folder? && top == if s.name == "" then [] else [s.name]
    ensures Expected(s, q) <==> q == [] || q == top || exists x :: x in s.items && ItemAt(top, x, q)
    ensures q == [] || q == top ==> q <= Base(s)
  {
    if i :| 0 <= i < |s.items| && FromItem(s, s.items[i], q) { assert ItemAt(top, s.items[i], q); }
    if x :| x in s.items && ItemAt(top, x, q) {
      var i :| 0 <= i < |s.items| && s.items[i] == x;
      assert FromItem(s, s.items[i], q);
    }
  }

  lemma {:induction false} ExactIsSource(tree: map<RelPath, Node>, s: Source)
    requires Exact(tree, s) && !s.Absent?
    ensures IsSource(tree, s)
  {
    if s.Folder? {
      var top: RelPath := if s.name == "" then [] else [s.name];
      forall q ensures q in tree <==> q == [] || q == top || exists x :: x in s.items && ItemAt(top, x, q) {
        SourcePaths(s, top, q);
      }
      SourcePaths(s, top, []);
      SourcePaths(s, top, top);
      forall x, q | x in s.items && ItemAt(top, x, q) ensures q in tree && tree[q] == x.node {
        var i :| 0 <= i < |s.items| && s.items[i] == x;
        assert Base(s) + s.items[i].path == q;
      }
    }
  }

  /** What can be stored: a file with content, or a folder with a regular file and no empty one. */
  ghost predicate HasContent(s: Source) {
    match s
    case OneFile(_, content) => content != []
    case Folder(_, items) =>
      && (exists x :: x in items && x.node.File?)
      && forall x :: x in items && x.node.File? ==> x.node.content != []
    case Absent => false
  }

  lemma {:induction false} StorableExactly(s: Source)
    ensures Storable(s) <==> HasContent(s)
  {
    if s.Folder? {
      var files := FilesOf(s.items);
      if files != [] { assert files[0] in files; }
    }
  }

  /**
   Adding a source and reconstructing it through a reliable kernel gives back that very tree and its bytes,
   whatever was recorded for the asset before.
   */
  method StoreAndReconstruct(wallet: Wallet, kernel: FormulaKernel, objectId: string, s: Source, now: int)
    returns (stored: Result<SetRow, StoreError>, rebuilt: Result<Exported, StoreError>)
    requires kernel.hash == wallet.hash && kernel.reliable && (s.Folder? ==> IsTree(s.items))
    modifies wallet, kernel
    ensures stored.Ok? <==> objectId in wallet.controllers && wallet.controllers[objectId] == wallet.me && HasContent(s)
    ensures rebuilt.Ok? <==> stored.Ok?
    ensures stored.Err? ==> wallet.sets == old(wallet.sets) && wallet.files == old(wallet.files)
    ensures rebuilt.Ok? ==> IsSource(rebuilt.value.tree, s)
    ensures rebuilt.Ok? ==>
              && rebuilt.value.bytes == stored.value.logicalBytes
              && rebuilt.value.bytes == (if s.OneFile? then |s.content| else FileBytes(s.items))
  {
    StorableExactly(s);
    stored := wallet.AddAsset(kernel, objectId, s, now);
    if stored.Err? { return stored, Err(stored.error); }
    rebuilt := wallet.Export(kernel, objectId, s);
    ExactIsSource(rebuilt.value.tree, s);
    RowsSum(wallet.hash, wallet.files[objectId], SourceFiles(s));
    if s.Folder? { BytesOfFiles(s.items); }
  }
}
