/** package_contract.py and the staging half of build-camoufox-host-package.py, on Linux: the
    self-excluding package tree, its recheck, the reuse of its digests for the browser, and the
    two-pass binding around the smoke run. JSON and hashing are parameters. */
module PackageContract {
  import opened Commons
  import opened BrowserTree

  const PACKAGE_MANIFEST := "engine-package.json"
  const PACKAGE_TREE := "package-tree.json"
  const BROWSER_TREE := "browser-tree-manifest.json"
  const BROWSER_PREFIX := "browser/"
  const BROWSER_DIRECTORY := "browser"

  /** The regular files of a package by relative POSIX path. */
  type Files = map<string, Content>

  /** The package tree: path to digest. Its JSON lists the paths in order, so a map says it all. */
  type Tree = map<string, string>

  predicate IsControl(c: char) {
    c < ' ' || '\U{007F}' <= c <= '\U{009F}'
  }

  /** `safe_relative_path` */
  predicate SafeRelative(path: string) {
    && path != "" && |path| <= 4096 && path[0] != '/' && '\\' !in path
    && (forall c | c in path :: !IsControl(c))
    && (forall part | part in Parts(path) :: part !in {"", ".", ".."})
    && ':' !in Parts(path)[0]
  }

  predicate IsHexDigit(c: char) { '0' <= c <= '9' || 'a' <= c <= 'f' }

  predicate IsSha256(s: string) { |s| == 64 && forall c | c in s :: IsHexDigit(c) }

  function TreeOf(files: Files, hash: Hash): Tree {
    map k | k in files && k != PACKAGE_MANIFEST && k != PACKAGE_TREE :: hash(files[k])
  }

  /** The regular files of a directory tree. */
  ghost function Gathered(entries: seq<Entry>): Files {
    if entries == [] then map[]
    else
      var before, last := Gathered(entries[..|entries| - 1]), entries[|entries| - 1];
      if last.kind == IsFile then before[Posix(last.rel) := last.content] else before
  }

  lemma {:induction false} GatheredIndexes(entries: seq<Entry>)
    requires DistinctPaths(entries)
    ensures IndexOf(Gathered(entries), entries)
  {
    hide Posix;
    if entries != [] {
      hide IndexOf;
      var front, last := entries[..|entries| - 1], entries[|entries| - 1];
      GatheredIndexes(front);
      assert entries == front + [last];
      assert forall x | x in front :: Posix(x.rel) != Posix(last.rel);
      IndexNext(Gathered(front), front, last);
    }
  }

  ghost function FilesOf(root: Node): (files: Files)
    requires root.Dir? && WellFormed(root)
    ensures IndexOf(files, Listing(root))
  {
    WalkedPathsDistinct(root, Listing(root));
    GatheredIndexes(Listing(root));
    Gathered(Listing(root))
  }

  /** The files of a package are the regular files there are, by their paths and with their bytes. */
  lemma FilesAreNodes(root: Node, path: string, content: Content)
    requires root.Dir? && WellFormed(root)
    ensures path in FilesOf(root) && FilesOf(root)[path] == content <==>
              exists rel :: NodeAt(root, rel) == Some(File(content)) && Posix(rel) == path
  {
    hide Posix, Listing, NodeAt;
    if path in FilesOf(root) && FilesOf(root)[path] == content {
      var e :| e in Listing(root) && e.kind == IsFile && Posix(e.rel) == path;
      FileListed(root, e.rel, content);
      assert e == Entry(e.rel, IsFile, content);
    }
    if exists rel :: NodeAt(root, rel) == Some(File(content)) && Posix(rel) == path {
      var rel :| NodeAt(root, rel) == Some(File(content)) && Posix(rel) == path;
      FileListed(root, rel, content);
      assert Entry(rel, IsFile, content) in Listing(root);
    }
  }

  lemma WalkedFiles(root: Node, walked: seq<Entry>, files: Files)
    requires root.Dir? && WellFormed(root) && multiset(walked) == multiset(Listing(root)) && IndexOf(files, walked)
    ensures files == FilesOf(root) && (HasIrregular(walked) <==> HasIrregular(Listing(root)))
    ensures AllSafe(walked) <==> AllSafe(Listing(root))
  {
    hide Posix, Gathered, SafeRelative;
    SameMembers(walked, Listing(root));
    SameIndex(files, FilesOf(root), Listing(root));
  }

  ghost predicate AllSafe(entries: seq<Entry>) {
    forall e | e in entries :: SafeRelative(Posix(e.rel))
  }

  /** The members collected from the first n entries. */
  ghost predicate Collected(entries: seq<Entry>, n: nat, members: Tree, hash: Hash)
    requires n <= |entries|
  {
    && (forall j | 0 <= j < n :: entries[j].kind == IsFile && SafeRelative(Posix(entries[j].rel)))
    && (forall j | 0 <= j < n && Posix(entries[j].rel) != PACKAGE_MANIFEST && Posix(entries[j].rel) != PACKAGE_TREE ::
          Posix(entries[j].rel) in members && members[Posix(entries[j].rel)] == hash(entries[j].content))
    && (forall k | k in members ::
          k != PACKAGE_MANIFEST && k != PACKAGE_TREE && exists j | 0 <= j < n :: k == Posix(entries[j].rel))
  }

  lemma CollectNext(entries: seq<Entry>, n: nat, members: Tree, hash: Hash)
    requires n < |entries| && DistinctPaths(entries) && Collected(entries, n, members, hash)
    requires entries[n].kind == IsFile && SafeRelative(Posix(entries[n].rel))
    ensures var relative := Posix(entries[n].rel);
            && relative !in members
            && Collected(entries, n + 1,
                 if relative != PACKAGE_MANIFEST && relative != PACKAGE_TREE
                 then members[relative := hash(entries[n].content)] else members, hash)
  {
    hide Posix, SafeRelative;
  }

  lemma CollectedAll(entries: seq<Entry>, files: Files, members: Tree, hash: Hash)
    requires IndexOf(files, entries) && Collected(entries, |entries|, members, hash)
    ensures members == TreeOf(files, hash) && !HasIrregular(entries) && AllSafe(entries)
  {
    hide Posix, SafeRelative;
    forall k | k in TreeOf(files, hash)
      ensures k in members
    {
      var e :| e in entries && e.kind == IsFile && Posix(e.rel) == k;
      var j :| 0 <= j < |entries| && entries[j] == e;
    }
    forall k | k in members
      ensures k in files && members[k] == hash(files[k])
    {
      var j :| 0 <= j < |entries| && k == Posix(entries[j].rel);
      assert entries[j] in entries;
    }
  }

  /** The loop of `build_package_tree` over the files the walk yields. */
  method CollectMembers(entries: seq<Entry>, ghost files: Files, hash: Hash) returns (members: Option<Tree>)
    requires DistinctPaths(entries) && IndexOf(files, entries)
    ensures members.None? <==> HasIrregular(entries) || !AllSafe(entries)
    ensures members.Some? ==> members.value == TreeOf(files, hash)
  {
    hide Posix, SafeRelative, IndexOf, TreeOf, DistinctPaths;
    var found: Tree := map[];
    var i := 0;
    while i < |entries|
      invariant 0 <= i <= |entries| && Collected(entries, i, found, hash)
    {
      var e := entries[i];
      assert e in entries;
      if e.kind != IsFile || !SafeRelative(Posix(e.rel)) { return None; }
      var relative := Posix(e.rel);
      CollectNext(entries, i, found, hash);
      if relative != PACKAGE_MANIFEST && relative != PACKAGE_TREE {
        if relative in found {
          // The case-collision error: no two walked paths are equal.
          assert false;
        }
        found := found[relative := hash(e.content)];
      }
      i := i + 1;
    }
    CollectedAll(entries, files, found, hash);
    members := Some(found);
  }

  /** `build_package_tree`: every file but the two that describe the package, each hashed once.
      None is the PackageContractError. */
  method BuildPackageTree(root: Node, hash: Hash) returns (tree: Option<Tree>)
    requires root.Dir? && WellFormed(root)
    ensures tree.None? <==>
              HasIrregular(Listing(root)) || !AllSafe(Listing(root)) || TreeOf(FilesOf(root), hash) == map[]
    ensures tree.Some? ==> tree.value == TreeOf(FilesOf(root), hash)
  {
    hide Posix, SafeRelative, TreeOf, DistinctPaths, Listing, IndexOf;
    var entries := WalkEntries(root);
    WalkedPathsDistinct(root, entries);
    GatheredIndexes(entries);
    WalkedFiles(root, entries, Gathered(entries));
    tree := CollectMembers(entries, FilesOf(root), hash);
    if tree == Some(map[]) { tree := None; }
  }

  // ---- recheck -----------------------------------------------------------

  datatype Declared = Declared(path: string, sha256: string)

  /** `engine-package.json`: the bindings that a recheck compares, the signature, and everything else that is signed
      but not compared (the key id, the capabilities, the order of the keys) as one opaque value. */
  datatype PackageManifest = PackageManifest(
    treeSha: string, browserTreeSha: string, assetSha: string, hostPath: string, hostSha: string, signature: string, rest: Content)

  /** Strict JSON plus the key-set checks on the package tree file. */
  type ParseTree = Content -> Option<seq<Declared>>

  const ASSET_LOCK := "runtime-asset-lock.json"

  const REQUIRED := {ASSET_LOCK, BROWSER_TREE, PACKAGE_TREE, "host/camoufox-host",
                     "host/verisilo-camoufox-supervisor", "host/probe/probe.html"}

  /** The list is well formed, names nothing twice, and says exactly what the tree says. */
  ghost predicate Declares(list: seq<Declared>, tree: Tree) {
    && (forall i | 0 <= i < |list| :: SafeRelative(list[i].path) && IsSha256(list[i].sha256))
    && (forall i, j | 0 <= i < j < |list| :: list[i].path != list[j].path)
    && (forall i | 0 <= i < |list| :: list[i].path in tree && tree[list[i].path] == list[i].sha256)
    && (forall k | k in tree :: exists i | 0 <= i < |list| :: list[i].path == k)
  }

  ghost predicate PackageMatches(files: Files, m: PackageManifest, hash: Hash, parse: ParseTree) {
    && REQUIRED <= files.Keys
    && hash(files[PACKAGE_TREE]) == m.treeSha && hash(files[BROWSER_TREE]) == m.browserTreeSha
    && parse(files[PACKAGE_TREE]).Some? && Declares(parse(files[PACKAGE_TREE]).value, TreeOf(files, hash))
    && m.hostPath in TreeOf(files, hash) && TreeOf(files, hash)[m.hostPath] == m.hostSha
  }

  lemma DeclaresNext(list: seq<Declared>, found: Tree, entry: Declared)
    requires Declares(list, found) && SafeRelative(entry.path) && IsSha256(entry.sha256) && entry.path !in found
    ensures Declares(list + [entry], found[entry.path := entry.sha256])
  {
    hide SafeRelative, IsSha256;
    var before, after, more := list, list + [entry], found[entry.path := entry.sha256];
    assert forall j | 0 <= j < |list| :: after[j] == before[j];
    forall k | k in more
      ensures exists j | 0 <= j < |after| :: after[j].path == k
    {
      if k in found {
        var j :| 0 <= j < |before| && before[j].path == k;
        assert after[j].path == k;
      } else {
        assert after[|list|].path == k;
      }
    }
  }

  /** The loop that fills `declared_entries`. */
  method ReadDeclared(list: seq<Declared>) returns (declared: Option<Tree>)
    ensures declared.Some? ==> Declares(list, declared.value)
    ensures declared.None? ==> forall tree :: !Declares(list, tree)
  {
    hide SafeRelative, IsSha256;
    var found: Tree := map[];
    var i := 0;
    while i < |list|
      invariant 0 <= i <= |list| && Declares(list[..i], found)
    {
      var entry := list[i];
      if !SafeRelative(entry.path) || !IsSha256(entry.sha256) { return None; }
      if entry.path in found {
        ghost var j :| 0 <= j < |list[..i]| && list[..i][j].path == entry.path;
        assert list[j].path == list[i].path;
        return None;
      }
      DeclaresNext(list[..i], found, entry);
      assert list[..i + 1] == list[..i] + [entry];
      found := found[entry.path := entry.sha256];
      i := i + 1;
    }
    assert list[..i] == list;
    declared := Some(found);
  }

  lemma DeclaresOne(list: seq<Declared>, tree: Tree, other: Tree)
    requires Declares(list, tree)
    ensures Declares(list, other) <==> tree == other
  {
    if Declares(list, other) {
      forall k
        ensures k in tree <==> k in other
        ensures k in tree ==> tree[k] == other[k]
      {
        if k in tree { var i :| 0 <= i < |list| && list[i].path == k; }
        if k in other { var i :| 0 <= i < |list| && list[i].path == k; }
      }
    }
  }

  /** `recheck_package`: the verified entries, or None for any PackageContractError. */
  method RecheckPackage(root: Node, m: PackageManifest, hash: Hash, parse: ParseTree) returns (entries: Option<Tree>)
    requires root.Dir? && WellFormed(root)
    ensures entries.Some? <==>
              !HasIrregular(Listing(root)) && AllSafe(Listing(root)) && PackageMatches(FilesOf(root), m, hash, parse)
    ensures entries.Some? ==> entries.value == TreeOf(FilesOf(root), hash)
  {
    hide SafeRelative, Posix, Declares, Listing, DistinctPaths, IndexOf, WellFormed;
    var walked := WalkEntries(root);
    WalkedPathsDistinct(root, walked);
    var contents, irregular := IndexFiles(walked);
    WalkedFiles(root, walked, contents);
    if !(REQUIRED <= contents.Keys) { return None; }
    if hash(contents[PACKAGE_TREE]) != m.treeSha { return None; }
    if hash(contents[BROWSER_TREE]) != m.browserTreeSha { return None; }
    var list := parse(contents[PACKAGE_TREE]);
    if list.None? { return None; }
    var declared := ReadDeclared(list.value);
    if declared.None? { return None; }
    DeclaresOne(list.value, declared.value, TreeOf(contents, hash));
    entries := BuildPackageTree(root, hash);
    assert m.hostPath in TreeOf(contents, hash) ==> TreeOf(contents, hash) != map[];
    if entries.Some? {
      var actual := entries.value;
      if actual != declared.value || m.hostPath !in actual || actual[m.hostPath] != m.hostSha { entries := None; }
    }
  }

  lemma SameIndex(a: Files, b: Files, entries: seq<Entry>)
    requires IndexOf(a, entries) && IndexOf(b, entries)
    ensures a == b
  {
    hide Posix;
    forall k
      ensures k in a <==> k in b
      ensures k in a ==> a[k] == b[k]
    {
      if k in a { var e :| e in entries && e.kind == IsFile && Posix(e.rel) == k; }
      if k in b { var e :| e in entries && e.kind == IsFile && Posix(e.rel) == k; }
    }
  }

  // ---- the digests of the package scan, reused for the browser -----------

  /** The loop of `recheck_formal_package` that strips the browser prefix. */
  function BrowserDigests(tree: Tree): (digests: map<string, string>)
    ensures forall k :: k in digests <==> BROWSER_PREFIX + k in tree
    ensures forall k | k in digests :: digests[k] == tree[BROWSER_PREFIX + k]
  {
    StripUnique();
    map k | k in tree && BROWSER_PREFIX <= k :: k[|BROWSER_PREFIX|..] := tree[k]
  }

  lemma StripUnique()
    ensures forall a: string, b: string | BROWSER_PREFIX <= a && BROWSER_PREFIX <= b
                                          && a[|BROWSER_PREFIX|..] == b[|BROWSER_PREFIX|..] :: a == b
    ensures forall k: string :: BROWSER_PREFIX <= BROWSER_PREFIX + k && (BROWSER_PREFIX + k)[|BROWSER_PREFIX|..] == k
  {
    forall a: string, b: string | BROWSER_PREFIX <= a && BROWSER_PREFIX <= b
                                  && a[|BROWSER_PREFIX|..] == b[|BROWSER_PREFIX|..]
      ensures a == b
    {
      assert a == BROWSER_PREFIX + a[|BROWSER_PREFIX|..];
      assert b == BROWSER_PREFIX + b[|BROWSER_PREFIX|..];
    }
  }

  /** What the asset lock pins. */
  datatype Lock = Lock(
    assetSha: string, browserTreeSha: string, executable: string, executableSha: string, propertiesSha: string, stamp: Stamp)

  /** The build id and the source stamp. */
  datatype Stamp = Stamp(buildId: string, sourceStamp: string)

  /** A browser tree manifest and the label of its root. */
  datatype Labelled = Labelled(rootLabel: string, manifest: Manifest)

  /** Strict JSON with the key sets and field checks of the asset lock, its platform included, and of the browser tree
      manifest; the two lines searched for in `application.ini`. */
  datatype Readers = Readers(lock: Content -> Option<Lock>, tree: Content -> Option<Labelled>, stamp: Content -> Option<Stamp>)

  const PROPERTIES := "properties.json"
  const APPLICATION := "application.ini"

  predicate DigestPinned(key: string, sha: string, files: Files, hash: Hash, digests: Digests) {
    key in files && DigestOf(key, files[key], hash, digests) == Some(sha)
  }

  /** `verify_package_browser_root` with `verify_tree_contents`; `raw` is the browser tree manifest. */
  method VerifyBrowserRoot(browser: Node, raw: Content, lock: Lock, read: Readers, hash: Hash, digests: Digests)
    returns (ok: bool)
    requires browser.Dir? && WellFormed(browser)
    ensures ok <==> BrowserVerifies(browser, raw, lock, read, hash, digests)
  {
    hide Posix, Listing, DistinctPaths, IndexOf, Loads, TreeMatches;
    var tree := read.tree(raw);
    if tree.None? { return false; }
    var loaded := LoadTreeManifest(tree.value.manifest);
    if !loaded || tree.value.rootLabel != BROWSER_DIRECTORY { return false; }
    var walked := WalkEntries(browser);
    WalkedPathsDistinct(browser, walked);
    var contents, irregular := IndexFiles(walked);
    WalkedFiles(browser, walked, contents);
    if lock.executable !in contents || APPLICATION !in contents || PROPERTIES !in contents { return false; }
    if read.stamp(contents[APPLICATION]) != Some(lock.stamp) { return false; }
    if hash(raw) != lock.browserTreeSha { return false; }
    if DigestOf(lock.executable, contents[lock.executable], hash, digests) != Some(lock.executableSha) { return false; }
    if DigestOf(PROPERTIES, contents[PROPERTIES], hash, digests) != Some(lock.propertiesSha) { return false; }
    var verified := VerifyTree(browser, tree.value.manifest.items, 20, hash, digests);
    ok := verified.Some?;
  }

  ghost predicate BrowserVerifies(browser: Node, raw: Content, lock: Lock, read: Readers, hash: Hash, digests: Digests)
    requires browser.Dir? && WellFormed(browser)
  {
    && read.tree(raw).Some? && Loads(read.tree(raw).value.manifest) && read.tree(raw).value.rootLabel == BROWSER_DIRECTORY
    && hash(raw) == lock.browserTreeSha
    && APPLICATION in FilesOf(browser) && read.stamp(FilesOf(browser)[APPLICATION]) == Some(lock.stamp)
    && DigestPinned(lock.executable, lock.executableSha, FilesOf(browser), hash, digests)
    && DigestPinned(PROPERTIES, lock.propertiesSha, FilesOf(browser), hash, digests)
    && TreeMatches(browser, read.tree(raw).value.manifest.items, hash, digests)
  }

  predicate HasBrowser(root: Node, browser: Node) {
    root.Dir? && root.readable && exists c | c in root.entries :: c == Child(BROWSER_DIRECTORY, browser)
  }

  lemma {:induction false} UnderShift(pre: Path, rel: Path, node: Node, e: Entry)
    requires e in Under(rel, node)
    ensures Entry(pre + e.rel, e.kind, e.content) in Under(pre + rel, node)
    decreases node, 0
  {
    if node.Dir? && node.readable { UnderAllShift(pre, rel, node.entries, e); }
  }

  lemma {:induction false} UnderAllShift(pre: Path, rel: Path, entries: seq<Child>, e: Entry)
    requires e in UnderAll(rel, entries)
    ensures Entry(pre + e.rel, e.kind, e.content) in UnderAll(pre + rel, entries)
    decreases entries
  {
    var c := entries[0];
    assert pre + (rel + [c.name]) == pre + rel + [c.name];
    if e in Under(rel + [c.name], c.node) {
      UnderShift(pre, rel + [c.name], c.node, e);
    } else {
      UnderAllShift(pre, rel, entries[1..], e);
    }
  }

  lemma {:induction false} ChildListed(rel: Path, entries: seq<Child>, c: Child, e: Entry)
    requires c in entries && e in Under(rel + [c.name], c.node)
    ensures e in UnderAll(rel, entries)
  {
    if entries[0] != c { ChildListed(rel, entries[1..], c, e); }
  }

  /** Every entry of the browser is an entry of the package, under the prefix. */
  lemma BrowserInPackage(root: Node, browser: Node, e: Entry)
    requires HasBrowser(root, browser) && browser.Dir? && WellFormed(browser) && e in Listing(browser)
    ensures Entry([BROWSER_DIRECTORY] + e.rel, e.kind, e.content) in Listing(root)
    ensures Posix([BROWSER_DIRECTORY] + e.rel) == BROWSER_PREFIX + Posix(e.rel)
  {
    RelsAreNames(browser, e);
    UnderShift([BROWSER_DIRECTORY], [], browser, e);
    assert [BROWSER_DIRECTORY] + [] == [] + [BROWSER_DIRECTORY];
    ChildListed([], root.entries, Child(BROWSER_DIRECTORY, browser), Entry([BROWSER_DIRECTORY] + e.rel, e.kind, e.content));
    assert ([BROWSER_DIRECTORY] + e.rel)[1..] == e.rel;
    assert BROWSER_DIRECTORY + "/" == BROWSER_PREFIX;
  }

  /** The formal recheck may reuse what the package scan hashed: on one state of the disk it accepts a browser
      exactly when hashing every browser file again would. */
  lemma ReuseAccepts(root: Node, browser: Node, raw: Content, lock: Lock, read: Readers, hash: Hash)
    requires HasBrowser(root, browser) && WellFormed(root) && browser.Dir? && WellFormed(browser)
    ensures BrowserVerifies(browser, raw, lock, read, hash, Some(BrowserDigests(TreeOf(FilesOf(root), hash))))
       <==> BrowserVerifies(browser, raw, lock, read, hash, None)
  {
    hide Posix, Listing, TreeMatches, FilesOf;
    var known := BrowserDigests(TreeOf(FilesOf(root), hash));
    forall e | e in Listing(browser) && e.kind == IsFile
      ensures Posix(e.rel) in known && known[Posix(e.rel)] == hash(e.content)
    {
      BrowserInPackage(root, browser, e);
      var there := Entry([BROWSER_DIRECTORY] + e.rel, e.kind, e.content);
      assert Posix(there.rel) in FilesOf(root) && FilesOf(root)[Posix(there.rel)] == e.content;
      assert (BROWSER_PREFIX + Posix(e.rel))[0] != PACKAGE_MANIFEST[0] && PACKAGE_TREE[0] != BROWSER_PREFIX[0];
    }
    if read.tree(raw).Some? { ReusedDigestsAgree(browser, read.tree(raw).value.manifest.items, hash, known); }
    forall k | k in FilesOf(browser)
      ensures k in known && known[k] == hash(FilesOf(browser)[k])
    {
      var e :| e in Listing(browser) && e.kind == IsFile && Posix(e.rel) == k;
    }
  }

  /** The package's own asset lock and browser tree manifest, as its root files hold them, agree with the manifest,
      with each other, and with every byte under the browser directory. */
  ghost predicate BrowserBound(root: Node, m: PackageManifest, read: Readers, hash: Hash)
    requires root.Dir? && WellFormed(root) && REQUIRED <= FilesOf(root).Keys
  {
    var files, browser := FilesOf(root), ChildNamed(root.entries, BROWSER_DIRECTORY);
    var lock := read.lock(files[ASSET_LOCK]);
    && lock.Some? && lock.value.assetSha == m.assetSha
    && browser.Some? && browser.value.Dir? && WellFormed(browser.value)
    && BrowserVerifies(browser.value, files[BROWSER_TREE], lock.value, read, hash, None)
  }

  /** `recheck_formal_package`, with the digests reused; its contract is the recheck without reuse. */
  method RecheckFormalPackage(root: Node, m: PackageManifest, hash: Hash, parse: ParseTree, read: Readers)
    returns (ok: bool)
    requires root.Dir? && WellFormed(root)
    ensures ok <==>
              && !HasIrregular(Listing(root)) && AllSafe(Listing(root)) && PackageMatches(FilesOf(root), m, hash, parse)
              && BrowserBound(root, m, read, hash)
  {
    hide Posix, Listing, SafeRelative, Declares, BrowserVerifies, TreeMatches, FilesOf, DistinctPaths, IndexOf;
    var entries := RecheckPackage(root, m, hash, parse);
    if entries.None? { return false; }
    var walked := WalkEntries(root);
    WalkedPathsDistinct(root, walked);
    var contents, irregular := IndexFiles(walked);
    WalkedFiles(root, walked, contents);
    var lock, raw := read.lock(contents[ASSET_LOCK]), contents[BROWSER_TREE];
    if lock.None? || lock.value.assetSha != m.assetSha { return false; }
    if BrowserBound(root, m, read, hash) { BoundByDigest(root, m, read, hash); }
    if lock.value.browserTreeSha != hash(raw) { return false; }
    var child := ChildNamed(root.entries, BROWSER_DIRECTORY);
    if child.None? || !child.value.Dir? { return false; }
    var browser := child.value;
    assert WellFormed(browser) by { assert Child(BROWSER_DIRECTORY, browser) in root.entries; }
    ok := VerifyBrowserRoot(browser, raw, lock.value, read, hash, Some(BrowserDigests(entries.value)));
    PackageIsReadable(root, m, hash, parse);
    assert HasBrowser(root, browser);
    ReuseAccepts(root, browser, raw, lock.value, read, hash);
  }

  /** The recheck's early comparison of the browser tree digest is also one of the browser's. */
  lemma BoundByDigest(root: Node, m: PackageManifest, read: Readers, hash: Hash)
    requires root.Dir? && WellFormed(root) && REQUIRED <= FilesOf(root).Keys && BrowserBound(root, m, read, hash)
    ensures read.lock(FilesOf(root)[ASSET_LOCK]).value.browserTreeSha == hash(FilesOf(root)[BROWSER_TREE])
  {
  }

  lemma PackageIsReadable(root: Node, m: PackageManifest, hash: Hash, parse: ParseTree)
    requires root.Dir? && WellFormed(root) && PackageMatches(FilesOf(root), m, hash, parse)
    ensures root.readable
  {
    hide Posix, Declares, FilesOf;
    assert m.hostPath in FilesOf(root);
  }

  // ---- the same on the files of the package ------------------------------

  /** The files under the browser directory. */
  function BrowserFiles(files: Files): (browser: Files)
    ensures forall k :: k in browser <==> BROWSER_PREFIX + k in files
    ensures forall k | k in browser :: browser[k] == files[BROWSER_PREFIX + k]
  {
    StripUnique();
    map k | k in files && BROWSER_PREFIX <= k :: k[|BROWSER_PREFIX|..] := files[k]
  }

  /** A verified tree, by its files. */
  ghost predicate FilesMatch(files: Files, items: seq<Item>, hash: Hash) {
    && (forall k | k in files :: k in Expected(items) || k in RUNTIME_TREE_EXTRAS)
    && (forall k | k in Expected(items) :: k in files && ItemMatches(k, Expected(items)[k], files[k], hash, None))
  }

  ghost predicate BrowserFilesVerify(browser: Files, raw: Content, lock: Lock, read: Readers, hash: Hash) {
    && read.tree(raw).Some? && Loads(read.tree(raw).value.manifest) && read.tree(raw).value.rootLabel == BROWSER_DIRECTORY
    && hash(raw) == lock.browserTreeSha
    && APPLICATION in browser && read.stamp(browser[APPLICATION]) == Some(lock.stamp)
    && DigestPinned(lock.executable, lock.executableSha, browser, hash, None)
    && DigestPinned(PROPERTIES, lock.propertiesSha, browser, hash, None)
    && FilesMatch(browser, read.tree(raw).value.manifest.items, hash)
  }

  /** The browser part of the formal recheck. */
  ghost predicate FilesBound(files: Files, assetSha: string, read: Readers, hash: Hash) {
    && ASSET_LOCK in files && BROWSER_TREE in files
    && read.lock(files[ASSET_LOCK]).Some? && read.lock(files[ASSET_LOCK]).value.assetSha == assetSha
    && BrowserFilesVerify(BrowserFiles(files), files[BROWSER_TREE], read.lock(files[ASSET_LOCK]).value, read, hash)
  }

  lemma MatchesByFiles(root: Node, items: seq<Item>, hash: Hash)
    requires root.Dir? && WellFormed(root) && !HasIrregular(Listing(root))
    ensures TreeMatches(root, items, hash, None) <==> FilesMatch(FilesOf(root), items, hash)
  {
    hide Posix, Expected, Listing, ItemMatches;
    var listing, files := Listing(root), FilesOf(root);
    assert forall e | e in listing :: e.kind == IsFile && Posix(e.rel) in files && files[Posix(e.rel)] == e.content;
    forall k | k in files
      ensures exists e | e in listing :: Posix(e.rel) == k && e.content == files[k]
    {
      var e :| e in listing && e.kind == IsFile && Posix(e.rel) == k;
    }
    if TreeMatches(root, items, hash, None) {
      forall k | k in Expected(items)
        ensures k in files && ItemMatches(k, Expected(items)[k], files[k], hash, None)
      {
        var e :| e in listing && Posix(e.rel) == k && ItemMatches(k, Expected(items)[k], e.content, hash, None);
      }
    }
  }

  lemma {:induction false} UnderUnshift(pre: Path, rel: Path, node: Node, e: Entry)
    requires e in Under(pre + rel, node)
    ensures pre <= e.rel && Entry(e.rel[|pre|..], e.kind, e.content) in Under(rel, node)
    decreases node, 0
  {
    assert (pre + rel)[|pre|..] == rel;
    if node.Dir? && node.readable { UnderAllUnshift(pre, rel, node.entries, e); }
  }

  lemma {:induction false} UnderAllUnshift(pre: Path, rel: Path, entries: seq<Child>, e: Entry)
    requires e in UnderAll(pre + rel, entries)
    ensures pre <= e.rel && Entry(e.rel[|pre|..], e.kind, e.content) in UnderAll(rel, entries)
    decreases entries
  {
    var c := entries[0];
    assert pre + (rel + [c.name]) == pre + rel + [c.name];
    if e in Under(pre + rel + [c.name], c.node) {
      UnderUnshift(pre, rel + [c.name], c.node, e);
    } else {
      UnderAllUnshift(pre, rel, entries[1..], e);
    }
  }

  /** The child that an entry of a directory is under. */
  lemma {:induction false} ListedChild(rel: Path, entries: seq<Child>, e: Entry) returns (c: Child)
    requires e in UnderAll(rel, entries)
    ensures c in entries && e in Under(rel + [c.name], c.node)
    decreases entries
  {
    c := entries[0];
    if e !in Under(rel + [c.name], c.node) { c := ListedChild(rel, entries[1..], e); }
  }

  lemma PosixHead(name: string, rel: Path)
    requires '/' !in name && (forall n | n in rel :: ValidName(n))
    ensures BROWSER_PREFIX <= Posix([name] + rel) ==> name == BROWSER_DIRECTORY && rel != []
    ensures rel != [] ==> Posix([name] + rel) == name + "/" + Posix(rel)
  {
    var p := Posix([name] + rel);
    assert ([name] + rel)[1..] == rel;
    assert rel == [] ==> p == name;
    if BROWSER_PREFIX <= p {
      assert p[7] == '/' && p[7] in p;
      if rel != [] {
        assert BROWSER_PREFIX == BROWSER_DIRECTORY + "/" && '/' !in BROWSER_DIRECTORY;
        assert p == BROWSER_DIRECTORY + "/" + p[|BROWSER_PREFIX|..];
        SplitUnique(BROWSER_DIRECTORY, p[|BROWSER_PREFIX|..], name, Posix(rel));
      }
    }
  }

  /** An entry of the package whose path has the prefix is an entry of its browser directory. */
  lemma UnderBrowser(root: Node, e: Entry) returns (browser: Node)
    requires root.Dir? && root.readable && WellFormed(root) && e in Listing(root) && BROWSER_PREFIX <= Posix(e.rel)
    ensures HasBrowser(root, browser) && browser.Dir? && e.rel != [] && e.rel[0] == BROWSER_DIRECTORY
    ensures Entry(e.rel[1..], e.kind, e.content) in Listing(browser) && Posix(e.rel) == BROWSER_PREFIX + Posix(e.rel[1..])
  {
    var c := ListedChild([], root.entries, e);
    assert [] + [c.name] == [c.name] + [];
    UnderUnshift([c.name], [], c.node, e);
    assert e.rel == [c.name] + e.rel[1..];
    RelsAreNames(root, e);
    assert forall n | n in e.rel[1..] :: n in e.rel;
    assert ValidName(c.name);
    PosixHead(c.name, e.rel[1..]);
    browser := c.node;
    assert c == Child(BROWSER_DIRECTORY, browser);
    assert !browser.Dir? ==> e.rel == [] + [c.name];
    assert BROWSER_DIRECTORY + "/" == BROWSER_PREFIX;
  }

  lemma OneBrowser(root: Node, a: Node, b: Node)
    requires WellFormed(root) && HasBrowser(root, a) && HasBrowser(root, b)
    ensures a == b
  {
    var i :| 0 <= i < |root.entries| && root.entries[i] == Child(BROWSER_DIRECTORY, a);
    var j :| 0 <= j < |root.entries| && root.entries[j] == Child(BROWSER_DIRECTORY, b);
  }

  lemma BrowserFilesOf(root: Node, browser: Node)
    requires HasBrowser(root, browser) && WellFormed(root) && browser.Dir? && WellFormed(browser)
    ensures FilesOf(browser) == BrowserFiles(FilesOf(root))
  {
    hide Posix, Listing;
    var files, own := FilesOf(root), FilesOf(browser);
    forall k
      ensures k in own ==> k in BrowserFiles(files) && BrowserFiles(files)[k] == own[k]
      ensures k in BrowserFiles(files) ==> k in own
    {
      if k in own {
        var e :| e in Listing(browser) && e.kind == IsFile && Posix(e.rel) == k;
        BrowserInPackage(root, browser, e);
        assert files[Posix([BROWSER_DIRECTORY] + e.rel)] == e.content by {
          assert Entry([BROWSER_DIRECTORY] + e.rel, e.kind, e.content) in Listing(root);
        }
      }
      if k in BrowserFiles(files) {
        var e :| e in Listing(root) && e.kind == IsFile && Posix(e.rel) == BROWSER_PREFIX + k;
        var there := UnderBrowser(root, e);
        OneBrowser(root, browser, there);
        assert (BROWSER_PREFIX + k)[|BROWSER_PREFIX|..] == k;
      }
    }
  }

  /** The browser of a regular package is regular. */
  lemma BrowserIsRegular(root: Node, browser: Node)
    requires HasBrowser(root, browser) && browser.Dir? && WellFormed(browser) && !HasIrregular(Listing(root))
    ensures !HasIrregular(Listing(browser))
  {
    hide Posix, Listing;
    forall e | e in Listing(browser)
      ensures e.kind == IsFile
    {
      BrowserInPackage(root, browser, e);
      assert Entry([BROWSER_DIRECTORY] + e.rel, e.kind, e.content) in Listing(root);
    }
  }

  /** The browser part of the formal recheck is a matter of the package's files alone. */
  lemma BoundByFiles(root: Node, m: PackageManifest, read: Readers, hash: Hash)
    requires root.Dir? && root.readable && WellFormed(root) && !HasIrregular(Listing(root)) && REQUIRED <= FilesOf(root).Keys
    ensures BrowserBound(root, m, read, hash) <==> FilesBound(FilesOf(root), m.assetSha, read, hash)
  {
    hide Posix, Listing, FilesOf, FilesMatch, TreeMatches, Loads;
    var child := ChildNamed(root.entries, BROWSER_DIRECTORY);
    var files := FilesOf(root);
    if FilesBound(files, m.assetSha, read, hash) {
      HasApplication(root);
      FirstNamed(root.entries, BROWSER_DIRECTORY);
    }
    if child.Some? && child.value.Dir? {
      var browser := child.value;
      assert Child(BROWSER_DIRECTORY, browser) in root.entries;
      assert HasBrowser(root, browser) && WellFormed(browser);
      BrowserFilesOf(root, browser);
      BrowserIsRegular(root, browser);
      if read.tree(files[BROWSER_TREE]).Some? {
        MatchesByFiles(browser, read.tree(files[BROWSER_TREE]).value.manifest.items, hash);
      }
    }
  }

  lemma HasApplication(root: Node)
    requires root.Dir? && root.readable && WellFormed(root) && APPLICATION in BrowserFiles(FilesOf(root))
    ensures exists c | c in root.entries :: c.name == BROWSER_DIRECTORY && c.node.Dir?
  {
    hide Posix, Listing;
    var e :| e in Listing(root) && e.kind == IsFile && Posix(e.rel) == BROWSER_PREFIX + APPLICATION;
    var browser := UnderBrowser(root, e);
    assert Child(BROWSER_DIRECTORY, browser) in root.entries;
  }

  // ---- staging and the two-pass binding ----------------------------------

  type PrintTree = Tree -> Content
  type PrintManifest = PackageManifest -> Content

  /** Writing either description of the package does not change the tree it describes. */
  lemma TreeIgnoresItself(files: Files, hash: Hash, path: string, content: Content)
    requires path == PACKAGE_MANIFEST || path == PACKAGE_TREE
    ensures TreeOf(files[path := content], hash) == TreeOf(files, hash)
  {
  }

  datatype Bound = Bound(files: Files, manifest: PackageManifest)

  /** `_bind_package_tree` */
  function Bind(b: Bound, tree: Tree, hash: Hash, printTree: PrintTree, printManifest: PrintManifest): Bound {
    var raw := printTree(tree);
    var manifest := b.manifest.(treeSha := hash(raw));
    Bound(b.files[PACKAGE_TREE := raw][PACKAGE_MANIFEST := printManifest(manifest)], manifest)
  }

  const RUNTIME_EXTRA := "browser/version.json"

  /** The drift check: nothing missing, nothing changed, nothing added but the runtime extra. */
  predicate DriftAllowed(before: Tree, after: Tree) {
    && before.Keys <= after.Keys
    && (forall k | k in before && k in after :: before[k] == after[k])
    && after.Keys - before.Keys <= {RUNTIME_EXTRA}
  }

  /** What the signer writes: the signature, and the rest of the manifest with its key id set. */
  datatype Signing = Signing(value: string, rest: Content)

  function Signed(m: PackageManifest, s: Signing): PackageManifest { m.(signature := s.value, rest := s.rest) }

  /** From the first binding to the final manifest. `smoked` is the staged tree as the smoke run leaves it,
      None when the builder gives up; `signature` what the signer does, if the package is signed. */
  function Stage(files: Files, manifest: PackageManifest, smoked: Files, signature: Option<Signing>, hash: Hash,
                 printTree: PrintTree, printManifest: PrintManifest): Option<Bound> {
    var first := Bind(Bound(files, manifest), TreeOf(files, hash), hash, printTree, printManifest);
    var before, after := TreeOf(files, hash), TreeOf(smoked, hash);
    if !DriftAllowed(before, after) then None
    else
      var second :=
        if after.Keys != before.Keys then Bind(Bound(smoked, first.manifest), after, hash, printTree, printManifest)
        else Bound(smoked, first.manifest);
      match signature
      case None => Some(second)
      case Some(value) =>
        var signed := Signed(second.manifest, value);
        Some(Bound(second.files[PACKAGE_MANIFEST := printManifest(signed)], signed))
  }

  /** What the builder puts in before the first binding: digests of files that are there, and a browser that is bound
      to the asset lock. */
  ghost predicate Prepared(files: Files, m: PackageManifest, read: Readers, hash: Hash) {
    && REQUIRED <= files.Keys + {PACKAGE_TREE}
    && hash(files[BROWSER_TREE]) == m.browserTreeSha && FilesBound(files, m.assetSha, read, hash)
    && m.hostPath in TreeOf(files, hash) && TreeOf(files, hash)[m.hostPath] == m.hostSha
  }

  /** Parsing a printed tree gives a list that declares it, for trees of safe paths and real digests. */
  ghost predicate Inverse(printTree: PrintTree, parse: ParseTree) {
    forall tree: Tree | (forall k | k in tree :: SafeRelative(k) && IsSha256(tree[k])) ::
      parse(printTree(tree)).Some? && Declares(parse(printTree(tree)).value, tree)
  }

  /** The tree shipped is the tree staged before the smoke run, plus at most `browser/version.json`. */
  lemma ShippedEntries(files: Files, manifest: PackageManifest, smoked: Files, signature: Option<Signing>, hash: Hash,
                       printTree: PrintTree, printManifest: PrintManifest)
    requires Stage(files, manifest, smoked, signature, hash, printTree, printManifest).Some?
    ensures var shipped := Stage(files, manifest, smoked, signature, hash, printTree, printManifest).value;
            && TreeOf(shipped.files, hash) == TreeOf(smoked, hash)
            && TreeOf(shipped.files, hash) - {RUNTIME_EXTRA} == TreeOf(files, hash) - {RUNTIME_EXTRA}
            && TreeOf(files, hash).Keys <= TreeOf(shipped.files, hash).Keys
  {
    var before, after := TreeOf(files, hash), TreeOf(smoked, hash);
    var shipped := Stage(files, manifest, smoked, signature, hash, printTree, printManifest).value;
    assert TreeOf(shipped.files, hash) == after;
    forall k
      ensures k in after - {RUNTIME_EXTRA} <==> k in before - {RUNTIME_EXTRA}
    {
      if k in after && k !in before { assert k in after.Keys - before.Keys; }
    }
    assert after - {RUNTIME_EXTRA} == before - {RUNTIME_EXTRA};
  }

  ghost predicate Printable(tree: Tree) {
    forall k | k in tree :: SafeRelative(k) && IsSha256(tree[k])
  }

  lemma DriftWithoutAdditions(before: Tree, after: Tree)
    requires DriftAllowed(before, after)
    ensures after.Keys == before.Keys ==> after == before
    ensures forall k | k in before :: k in after && after[k] == before[k]
  {
  }

  /** A manifest whose tree file is the print of the tree beside it passes the recheck. */
  lemma BoundTreeRechecks(files: Files, m: PackageManifest, tree: Tree, hash: Hash, printTree: PrintTree, parse: ParseTree)
    requires Inverse(printTree, parse) && tree == TreeOf(files, hash) && Printable(tree)
    requires REQUIRED <= files.Keys && hash(files[BROWSER_TREE]) == m.browserTreeSha
    requires m.hostPath in tree && tree[m.hostPath] == m.hostSha
    requires files[PACKAGE_TREE] == printTree(tree) && m.treeSha == hash(printTree(tree))
    ensures PackageMatches(files, m, hash, parse)
  {
    hide SafeRelative, IsSha256, TreeOf, Declares;
  }

  /** No two different contents of one staged file share a digest. */
  ghost predicate ToldApart(files: Files, smoked: Files, hash: Hash) {
    forall k | k in files && k in smoked && hash(files[k]) == hash(smoked[k]) :: files[k] == smoked[k]
  }

  /** The bindings that survive the smoke run: the drift check compares every file but the two descriptions. */
  lemma SmokedKeepsBindings(files: Files, manifest: PackageManifest, smoked: Files, read: Readers, hash: Hash)
    requires Prepared(files, manifest, read, hash) && DriftAllowed(TreeOf(files, hash), TreeOf(smoked, hash))
    ensures REQUIRED <= smoked.Keys + {PACKAGE_TREE} && hash(smoked[BROWSER_TREE]) == manifest.browserTreeSha
    ensures var tree := TreeOf(smoked, hash);
            manifest.hostPath in tree && tree[manifest.hostPath] == manifest.hostSha
  {
    hide DriftAllowed, FilesBound;
    var before, after := TreeOf(files, hash), TreeOf(smoked, hash);
    DriftWithoutAdditions(before, after);
    assert BROWSER_TREE[0] != PACKAGE_TREE[0] && BROWSER_TREE[0] != PACKAGE_MANIFEST[0];
    assert BROWSER_TREE in before;
    forall k | k in REQUIRED
      ensures k in smoked.Keys + {PACKAGE_TREE}
    {
      if k != PACKAGE_TREE {
        assert k != PACKAGE_MANIFEST by { assert PACKAGE_MANIFEST[0] == 'e' && k[0] != 'e'; }
        assert k in before;
        assert k in after;
      }
    }
  }

  /** The drift check leaves every file but the descriptions and the runtime extra as it was. */
  lemma SmokedFiles(files: Files, smoked: Files, hash: Hash)
    requires DriftAllowed(TreeOf(files, hash), TreeOf(smoked, hash)) && ToldApart(files, smoked, hash)
    ensures forall k | k != PACKAGE_MANIFEST && k != PACKAGE_TREE && k != RUNTIME_EXTRA ::
              (k in smoked <==> k in files) && (k in files ==> smoked[k] == files[k])
    ensures forall k | k in files && k != PACKAGE_MANIFEST && k != PACKAGE_TREE :: k in smoked && smoked[k] == files[k]
  {
    var before, after := TreeOf(files, hash), TreeOf(smoked, hash);
    DriftWithoutAdditions(before, after);
    forall k | k != PACKAGE_MANIFEST && k != PACKAGE_TREE
      ensures k in smoked && k !in files ==> k == RUNTIME_EXTRA
      ensures k in files ==> k in smoked && smoked[k] == files[k]
    {
      if k in smoked && k !in files {
        assert k in after && k !in before;
        assert k in after.Keys - before.Keys;
      }
      if k in files { assert k in before && k in after; }
    }
  }

  /** So the browser stays bound: the one file that may be added is the one its verification passes over. */
  lemma SmokedKeepsBrowser(files: Files, smoked: Files, assetSha: string, read: Readers, hash: Hash)
    requires DriftAllowed(TreeOf(files, hash), TreeOf(smoked, hash)) && ToldApart(files, smoked, hash)
    requires FilesBound(files, assetSha, read, hash)
    ensures FilesBound(smoked, assetSha, read, hash)
  {
    hide Expected, Loads, ItemMatches, TreeOf, DriftAllowed, ToldApart, BrowserFiles;
    SmokedFiles(files, smoked, hash);
    LockApart();
    var before, after := BrowserFiles(files), BrowserFiles(smoked);
    forall k
      ensures k in before ==> k in after && after[k] == before[k]
      ensures k in after && k !in before ==> k in RUNTIME_TREE_EXTRAS
    {
      assert (BROWSER_PREFIX + k)[0] == 'b';
      if k in after && k !in before { RuntimeExtraIs(k); }
    }
  }

  lemma RuntimeExtraIs(k: string)
    ensures BROWSER_PREFIX + k == RUNTIME_EXTRA ==> k in RUNTIME_TREE_EXTRAS
  {
    if BROWSER_PREFIX + k == RUNTIME_EXTRA {
      assert (BROWSER_PREFIX + k)[|BROWSER_PREFIX|..] == k;
      assert RUNTIME_EXTRA[|BROWSER_PREFIX|..] == "version.json";
    }
  }

  lemma LockApart()
    ensures ASSET_LOCK != PACKAGE_MANIFEST && ASSET_LOCK != PACKAGE_TREE && ASSET_LOCK != RUNTIME_EXTRA
    ensures BROWSER_TREE != PACKAGE_MANIFEST && BROWSER_TREE != PACKAGE_TREE && BROWSER_TREE != RUNTIME_EXTRA
    ensures PACKAGE_MANIFEST[0] == 'e' && PACKAGE_TREE[0] == 'p'
  {
    assert ASSET_LOCK[0] == 'r' && RUNTIME_EXTRA[0] == 'b' && BROWSER_TREE[7] == '-' && RUNTIME_EXTRA[7] == '/';
  }

  /** Writing a description leaves the browser bound as it is. */
  lemma DescriptionsKeepBrowser(files: Files, path: string, content: Content, assetSha: string, read: Readers, hash: Hash)
    requires path == PACKAGE_MANIFEST || path == PACKAGE_TREE
    ensures FilesBound(files[path := content], assetSha, read, hash) <==> FilesBound(files, assetSha, read, hash)
  {
    hide BrowserFilesVerify, BrowserFiles;
    LockApart();
    var more := files[path := content];
    var before, after := BrowserFiles(files), BrowserFiles(more);
    forall k
      ensures k in after <==> k in before
      ensures k in before ==> after[k] == before[k]
    {
      assert (BROWSER_PREFIX + k)[0] == 'b' && BROWSER_PREFIX + k != path;
    }
    assert after == before;
  }

  /** Reading `engine-package.json` back: strict JSON plus the field checks on the manifest. */
  type ParseManifest = Content -> Option<PackageManifest>

  /** The manifest the builder writes, whatever tree digest it carries, reads back as it was. */
  ghost predicate ReadsBack(manifest: PackageManifest, printManifest: PrintManifest, parseManifest: ParseManifest) {
    forall sha | IsSha256(sha) ::
      parseManifest(printManifest(manifest.(treeSha := sha))) == Some(manifest.(treeSha := sha))
  }

  /** The builder's last recheck: of the staged files, by the manifest read back from them. */
  ghost predicate FinalRecheck(files: Files, hash: Hash, parse: ParseTree, parseManifest: ParseManifest, read: Readers) {
    && PACKAGE_MANIFEST in files && parseManifest(files[PACKAGE_MANIFEST]).Some?
    && var m := parseManifest(files[PACKAGE_MANIFEST]).value;
       PackageMatches(files, m, hash, parse) && FilesBound(files, m.assetSha, read, hash)
  }

  /** On a directory this is `recheck_formal_package`: what the method decides of it. */
  lemma FinalRecheckIs(root: Node, m: PackageManifest, hash: Hash, parse: ParseTree, read: Readers)
    requires root.Dir? && WellFormed(root) && !HasIrregular(Listing(root)) && AllSafe(Listing(root))
    ensures PackageMatches(FilesOf(root), m, hash, parse) ==>
              (BrowserBound(root, m, read, hash) <==> FilesBound(FilesOf(root), m.assetSha, read, hash))
  {
    hide Listing, FilesOf, BrowserBound, FilesBound, Declares;
    if PackageMatches(FilesOf(root), m, hash, parse) {
      PackageIsReadable(root, m, hash, parse);
      BoundByFiles(root, m, read, hash);
    }
  }

  /** What is signed: the manifest without its signature. */
  function Payload(m: PackageManifest): PackageManifest { m.(signature := "") }

  /** And the build completes when, after that, the payload written earlier is the payload of that manifest. */
  ghost predicate Completes(b: Bound, hash: Hash, parse: ParseTree, parseManifest: ParseManifest, read: Readers) {
    && FinalRecheck(b.files, hash, parse, parseManifest, read)
    && Payload(parseManifest(b.files[PACKAGE_MANIFEST]).value) == Payload(b.manifest)
  }

  /** What is required of everything that stands for code outside: printers and parsers are inverse, digests real,
      and the contents in question are told apart by their digests. */
  ghost predicate Sound(files: Files, manifest: PackageManifest, smoked: Files, signature: Option<Signing>, hash: Hash,
                        parse: ParseTree, printTree: PrintTree, printManifest: PrintManifest, parseManifest: ParseManifest) {
    && Inverse(printTree, parse) && ReadsBack(manifest, printManifest, parseManifest) && (forall c :: IsSha256(hash(c)))
    && (signature.Some? ==> ReadsBack(Signed(manifest, signature.value), printManifest, parseManifest))
    && Printable(TreeOf(files, hash)) && Printable(TreeOf(smoked, hash)) && ToldApart(files, smoked, hash)
    && (PACKAGE_TREE in smoked && hash(smoked[PACKAGE_TREE]) == hash(printTree(TreeOf(files, hash))) ==>
          smoked[PACKAGE_TREE] == printTree(TreeOf(files, hash)))
  }

  predicate TreeFileKept(files: Files, smoked: Files, hash: Hash, printTree: PrintTree) {
    PACKAGE_TREE in smoked && smoked[PACKAGE_TREE] == printTree(TreeOf(files, hash))
  }

  /** The files that are rechecked, by how the smoke run and the signing left them. */
  lemma StagedFiles(files: Files, manifest: PackageManifest, smoked: Files, signature: Option<Signing>, hash: Hash,
                    printTree: PrintTree, printManifest: PrintManifest)
    requires Stage(files, manifest, smoked, signature, hash, printTree, printManifest).Some?
    ensures var shipped := Stage(files, manifest, smoked, signature, hash, printTree, printManifest).value;
            var before, after := TreeOf(files, hash), TreeOf(smoked, hash);
            var added := after.Keys != before.Keys;
            && TreeOf(shipped.files, hash) == after
            && shipped.manifest ==
                 (if signature.Some? then Signed(manifest, signature.value) else manifest)
                 .(treeSha := hash(printTree(if added then after else before)))
            && shipped.files.Keys == smoked.Keys + (if added then {PACKAGE_TREE} else {}) + (if added || signature.Some? then {PACKAGE_MANIFEST} else {})
            && (forall k | k in smoked && k != PACKAGE_TREE && k != PACKAGE_MANIFEST :: shipped.files[k] == smoked[k])
            && (added ==> shipped.files[PACKAGE_TREE] == printTree(after))
            && (!added && PACKAGE_TREE in smoked ==> shipped.files[PACKAGE_TREE] == smoked[PACKAGE_TREE])
            && (added || signature.Some? ==> shipped.files[PACKAGE_MANIFEST] == printManifest(shipped.manifest))
            && (!added && signature.None? && PACKAGE_MANIFEST in smoked ==> shipped.files[PACKAGE_MANIFEST] == smoked[PACKAGE_MANIFEST])
  {
    hide TreeOf, DriftAllowed;
    DescriptionsApart();
    StagedTree(files, manifest, smoked, signature, hash, printTree, printManifest);
  }

  /** The smoke run left a tree file and a manifest that agree with each other and with the staged files. */
  ghost predicate LeftConsistent(files: Files, smoked: Files, manifest: PackageManifest, hash: Hash, parse: ParseTree,
                                 parseManifest: ParseManifest) {
    && PACKAGE_TREE in smoked && PACKAGE_MANIFEST in smoked && parseManifest(smoked[PACKAGE_MANIFEST]).Some?
    && var left := parseManifest(smoked[PACKAGE_MANIFEST]).value;
       && left.treeSha == hash(smoked[PACKAGE_TREE])
       && left.browserTreeSha == manifest.browserTreeSha && left.assetSha == manifest.assetSha
       && left.hostPath in TreeOf(files, hash) && TreeOf(files, hash)[left.hostPath] == left.hostSha
       && parse(smoked[PACKAGE_TREE]).Some? && Declares(parse(smoked[PACKAGE_TREE]).value, TreeOf(files, hash))
  }

  /** The browser of what is shipped is bound, to the asset the builder started from and to no other. */
  lemma ShippedBrowser(files: Files, manifest: PackageManifest, smoked: Files, signature: Option<Signing>, hash: Hash,
                       printTree: PrintTree, printManifest: PrintManifest, read: Readers, assetSha: string)
    requires Stage(files, manifest, smoked, signature, hash, printTree, printManifest).Some?
    requires FilesBound(files, manifest.assetSha, read, hash) && ToldApart(files, smoked, hash)
    ensures var shipped := Stage(files, manifest, smoked, signature, hash, printTree, printManifest).value;
            FilesBound(shipped.files, assetSha, read, hash) <==> assetSha == manifest.assetSha
  {
    StageDrift(files, manifest, smoked, signature, hash, printTree, printManifest);
    SmokedKeepsBrowser(files, smoked, manifest.assetSha, read, hash);
    assert FilesBound(smoked, assetSha, read, hash) <==> assetSha == manifest.assetSha;
    hide FilesBound, TreeOf, DriftAllowed;
    var first := Bind(Bound(files, manifest), TreeOf(files, hash), hash, printTree, printManifest);
    var after := TreeOf(smoked, hash);
    var second := if after.Keys != TreeOf(files, hash).Keys
                  then Bind(Bound(smoked, first.manifest), after, hash, printTree, printManifest)
                  else Bound(smoked, first.manifest);
    DescriptionsKeepBrowser(smoked, PACKAGE_TREE, printTree(after), assetSha, read, hash);
    DescriptionsKeepBrowser(smoked[PACKAGE_TREE := printTree(after)], PACKAGE_MANIFEST,
                            printManifest(first.manifest.(treeSha := hash(printTree(after)))), assetSha, read, hash);
    if signature.Some? {
      DescriptionsKeepBrowser(second.files, PACKAGE_MANIFEST, printManifest(Signed(second.manifest, signature.value)),
                              assetSha, read, hash);
    }
  }

  /** The builder's last recheck, for every smoke run the drift check lets through: it passes when the smoke run
      added the runtime extra; for a signed package, whose manifest is written anew, when the smoke run left the tree
      file as the first binding wrote it; and for an unsigned one when the two files it left agree. The drift check
      looks at neither of them. */
  lemma StagedPackageRechecks(files: Files, manifest: PackageManifest, smoked: Files, signature: Option<Signing>,
                              hash: Hash, parse: ParseTree, printTree: PrintTree, printManifest: PrintManifest,
                              parseManifest: ParseManifest, read: Readers)
    requires Prepared(files, manifest, read, hash)
    requires Sound(files, manifest, smoked, signature, hash, parse, printTree, printManifest, parseManifest)
    requires Stage(files, manifest, smoked, signature, hash, printTree, printManifest).Some?
    ensures var shipped := Stage(files, manifest, smoked, signature, hash, printTree, printManifest).value;
            FinalRecheck(shipped.files, hash, parse, parseManifest, read)
            <==> || TreeOf(smoked, hash).Keys != TreeOf(files, hash).Keys
                 || (signature.Some? && TreeFileKept(files, smoked, hash, printTree))
                 || (signature.None? && LeftConsistent(files, smoked, manifest, hash, parse, parseManifest))
  {
    hide SafeRelative, IsSha256, Declares, DriftAllowed, Prepared, Inverse, Printable, TreeOf, Stage, FilesBound, ToldApart;
    var before, after := TreeOf(files, hash), TreeOf(smoked, hash);
    var shipped := Stage(files, manifest, smoked, signature, hash, printTree, printManifest).value;
    StageDrift(files, manifest, smoked, signature, hash, printTree, printManifest);
    StagedFiles(files, manifest, smoked, signature, hash, printTree, printManifest);
    SmokedKeepsBindings(files, manifest, smoked, read, hash);
    DriftWithoutAdditions(before, after);
    DescriptionsApart();
    PreparedNames(files, manifest, read, hash);
    if PACKAGE_MANIFEST in shipped.files && parseManifest(shipped.files[PACKAGE_MANIFEST]).Some? {
      ShippedBrowser(files, manifest, smoked, signature, hash, printTree, printManifest, read,
                     parseManifest(shipped.files[PACKAGE_MANIFEST]).value.assetSha);
    }
    if after.Keys != before.Keys || (signature.Some? && TreeFileKept(files, smoked, hash, printTree)) {
      BoundTreeRechecks(shipped.files, shipped.manifest, after, hash, printTree, parse);
    }
  }

  lemma StageDrift(files: Files, manifest: PackageManifest, smoked: Files, signature: Option<Signing>, hash: Hash,
                   printTree: PrintTree, printManifest: PrintManifest)
    requires Stage(files, manifest, smoked, signature, hash, printTree, printManifest).Some?
    ensures DriftAllowed(TreeOf(files, hash), TreeOf(smoked, hash))
  {
    hide TreeOf, DriftAllowed;
  }

  lemma PreparedNames(files: Files, manifest: PackageManifest, read: Readers, hash: Hash)
    requires Prepared(files, manifest, read, hash)
    ensures PACKAGE_TREE in REQUIRED && BROWSER_TREE in REQUIRED && PACKAGE_MANIFEST !in REQUIRED
    ensures FilesBound(files, manifest.assetSha, read, hash)
  {
    hide FilesBound, TreeOf;
    assert forall k | k in REQUIRED :: k[0] != 'e';
    assert PACKAGE_MANIFEST[0] == 'e';
  }

  /** The whole build, for every such smoke run: it completes when the smoke run added the runtime extra, and
      otherwise exactly when the smoke run left the tree file as it was and, unless the package is signed, left a
      manifest of which every byte that would be signed is the same. */
  lemma StagedBuildCompletes(files: Files, manifest: PackageManifest, smoked: Files, signature: Option<Signing>,
                             hash: Hash, parse: ParseTree, printTree: PrintTree, printManifest: PrintManifest,
                             parseManifest: ParseManifest, read: Readers)
    requires Prepared(files, manifest, read, hash)
    requires Sound(files, manifest, smoked, signature, hash, parse, printTree, printManifest, parseManifest)
    requires Stage(files, manifest, smoked, signature, hash, printTree, printManifest).Some?
    ensures var shipped := Stage(files, manifest, smoked, signature, hash, printTree, printManifest).value;
            Completes(shipped, hash, parse, parseManifest, read)
            <==> || TreeOf(smoked, hash).Keys != TreeOf(files, hash).Keys
                 || (&& TreeFileKept(files, smoked, hash, printTree)
                     && (signature.None? ==>
                           && PACKAGE_MANIFEST in smoked && parseManifest(smoked[PACKAGE_MANIFEST]).Some?
                           && Payload(parseManifest(smoked[PACKAGE_MANIFEST]).value)
                              == Payload(manifest.(treeSha := hash(printTree(TreeOf(files, hash)))))))
  {
    hide SafeRelative, IsSha256, Declares, DriftAllowed, Prepared, Inverse, Printable, TreeOf, Stage, FilesBound, ToldApart;
    var before, after := TreeOf(files, hash), TreeOf(smoked, hash);
    var shipped := Stage(files, manifest, smoked, signature, hash, printTree, printManifest).value;
    StagedPackageRechecks(files, manifest, smoked, signature, hash, parse, printTree, printManifest, parseManifest, read);
    StagedFiles(files, manifest, smoked, signature, hash, printTree, printManifest);
    StageDrift(files, manifest, smoked, signature, hash, printTree, printManifest);
    SmokedKeepsBindings(files, manifest, smoked, read, hash);
    DriftWithoutAdditions(before, after);
    DescriptionsApart();
    PreparedNames(files, manifest, read, hash);
    if after.Keys == before.Keys && TreeFileKept(files, smoked, hash, printTree) {
      BoundTreeRechecks(shipped.files, shipped.manifest, after, hash, printTree, parse);
    }
  }

  lemma DescriptionsApart()
    ensures PACKAGE_TREE != PACKAGE_MANIFEST && BROWSER_TREE != PACKAGE_MANIFEST && BROWSER_TREE != PACKAGE_TREE
  {
    assert PACKAGE_TREE[0] != PACKAGE_MANIFEST[0] && BROWSER_TREE[0] != PACKAGE_MANIFEST[0] && BROWSER_TREE[0] != PACKAGE_TREE[0];
  }

  lemma StagedTree(files: Files, manifest: PackageManifest, smoked: Files, signature: Option<Signing>, hash: Hash,
                   printTree: PrintTree, printManifest: PrintManifest)
    requires Stage(files, manifest, smoked, signature, hash, printTree, printManifest).Some?
    ensures TreeOf(Stage(files, manifest, smoked, signature, hash, printTree, printManifest).value.files, hash)
         == TreeOf(smoked, hash)
  {
  }

  // ---- smoke runs the drift check lets through ---------------------------

  /** Rewriting the two descriptions is no drift. */
  lemma DescriptionsAreNoDrift(files: Files, hash: Hash, tree: Content, manifest: Content)
    ensures TreeOf(files[PACKAGE_TREE := tree][PACKAGE_MANIFEST := manifest], hash) == TreeOf(files, hash)
    ensures DriftAllowed(TreeOf(files, hash), TreeOf(files[PACKAGE_TREE := tree][PACKAGE_MANIFEST := manifest], hash))
  {
    TreeIgnoresItself(files, hash, PACKAGE_TREE, tree);
    TreeIgnoresItself(files[PACKAGE_TREE := tree], hash, PACKAGE_MANIFEST, manifest);
  }

  /** A smoke run that breaks the manifest file of an unsigned package, and does nothing else: the drift check passes,
      the last recheck fails. */
  lemma BrokenManifestFails(files: Files, manifest: PackageManifest, broken: Content, hash: Hash, parse: ParseTree,
                            printTree: PrintTree, printManifest: PrintManifest, parseManifest: ParseManifest, read: Readers)
    requires parseManifest(broken).None?
    ensures var first := Bind(Bound(files, manifest), TreeOf(files, hash), hash, printTree, printManifest);
            var staged := Stage(files, manifest, first.files[PACKAGE_MANIFEST := broken], None, hash, printTree, printManifest);
            && staged.Some? && TreeFileKept(files, first.files[PACKAGE_MANIFEST := broken], hash, printTree)
            && !FinalRecheck(staged.value.files, hash, parse, parseManifest, read)
  {
    hide FilesBound;
    var tree := printTree(TreeOf(files, hash));
    var first := Bind(Bound(files, manifest), TreeOf(files, hash), hash, printTree, printManifest);
    DescriptionsAreNoDrift(files, hash, tree, broken);
    DescriptionsApart();
    assert first.files[PACKAGE_MANIFEST := broken] == files[PACKAGE_TREE := tree][PACKAGE_MANIFEST := broken];
  }

  /** A smoke run that rewrites the tree file to other bytes fails the last recheck, signed or not. */
  lemma RewrittenTreeFails(files: Files, manifest: PackageManifest, other: Content, signature: Option<Signing>, hash: Hash,
                           parse: ParseTree, printTree: PrintTree, printManifest: PrintManifest, parseManifest: ParseManifest,
                           read: Readers)
    requires hash(other) != hash(printTree(TreeOf(files, hash))) && forall c :: IsSha256(hash(c))
    requires ReadsBack(manifest, printManifest, parseManifest)
    requires signature.Some? ==> ReadsBack(Signed(manifest, signature.value), printManifest, parseManifest)
    ensures var first := Bind(Bound(files, manifest), TreeOf(files, hash), hash, printTree, printManifest);
            var staged := Stage(files, manifest, first.files[PACKAGE_TREE := other], signature, hash, printTree, printManifest);
            staged.Some? && !FinalRecheck(staged.value.files, hash, parse, parseManifest, read)
  {
    hide TreeOf, DriftAllowed, IsSha256, FilesBound;
    var first := Bind(Bound(files, manifest), TreeOf(files, hash), hash, printTree, printManifest);
    var smoked := first.files[PACKAGE_TREE := other];
    DescriptionsApart();
    assert smoked == files[PACKAGE_TREE := other][PACKAGE_MANIFEST := printManifest(first.manifest)];
    DescriptionsAreNoDrift(files, hash, other, printManifest(first.manifest));
    StagedFiles(files, manifest, smoked, signature, hash, printTree, printManifest);
    var sha := hash(printTree(TreeOf(files, hash)));
    assert IsSha256(sha);
    assert first.manifest == manifest.(treeSha := sha);
  }

  /** A smoke run that rewrites the manifest file, of an unsigned package, to any that reads back and agrees with the
      tree file it leaves: the last recheck passes, the package is copied out, and the build fails then exactly when
      anything that would be signed is different. */
  lemma RewrittenPairPasses(files: Files, manifest: PackageManifest, tree: Content, left: PackageManifest, hash: Hash,
                            parse: ParseTree, printTree: PrintTree, printManifest: PrintManifest,
                            parseManifest: ParseManifest, read: Readers)
    requires Prepared(files, manifest, read, hash)
    requires parse(tree).Some? && Declares(parse(tree).value, TreeOf(files, hash))
    requires left == manifest.(treeSha := hash(tree), signature := left.signature, rest := left.rest)
    requires parseManifest(printManifest(left)) == Some(left)
    ensures var first := Bind(Bound(files, manifest), TreeOf(files, hash), hash, printTree, printManifest);
            var smoked := first.files[PACKAGE_TREE := tree][PACKAGE_MANIFEST := printManifest(left)];
            var staged := Stage(files, manifest, smoked, None, hash, printTree, printManifest);
            && staged.Some? && FinalRecheck(staged.value.files, hash, parse, parseManifest, read)
            && (Completes(staged.value, hash, parse, parseManifest, read) <==>
                  hash(tree) == hash(printTree(TreeOf(files, hash))) && left.rest == manifest.rest)
  {
    hide TreeOf, DriftAllowed, IsSha256, Declares, Prepared, FilesBound;
    var first := Bind(Bound(files, manifest), TreeOf(files, hash), hash, printTree, printManifest);
    var smoked := first.files[PACKAGE_TREE := tree][PACKAGE_MANIFEST := printManifest(left)];
    DescriptionsApart();
    assert smoked == files[PACKAGE_TREE := tree][PACKAGE_MANIFEST := printManifest(left)];
    DescriptionsAreNoDrift(files, hash, tree, printManifest(left));
    SmokedKeepsBindings(files, manifest, smoked, read, hash);
    StagedFiles(files, manifest, smoked, None, hash, printTree, printManifest);
    PreparedNames(files, manifest, read, hash);
    DescriptionsKeepBrowser(files, PACKAGE_TREE, tree, manifest.assetSha, read, hash);
    DescriptionsKeepBrowser(files[PACKAGE_TREE := tree], PACKAGE_MANIFEST, printManifest(left), manifest.assetSha, read, hash);
    var staged := Stage(files, manifest, smoked, None, hash, printTree, printManifest).value;
    assert staged.files == smoked;
  }

  /** So a smoke run that only sets another key id, other capabilities or another order of the keys passes the recheck
      and still fails the build. */
  lemma RewrittenRestFails(files: Files, manifest: PackageManifest, rest: Content, hash: Hash, parse: ParseTree,
                           printTree: PrintTree, printManifest: PrintManifest, parseManifest: ParseManifest, read: Readers)
    requires Prepared(files, manifest, read, hash) && Printable(TreeOf(files, hash)) && Inverse(printTree, parse)
    requires rest != manifest.rest && (forall c :: IsSha256(hash(c)))
    requires ReadsBack(manifest.(rest := rest), printManifest, parseManifest)
    ensures var first := Bind(Bound(files, manifest), TreeOf(files, hash), hash, printTree, printManifest);
            var smoked := first.files[PACKAGE_MANIFEST := printManifest(first.manifest.(rest := rest))];
            var staged := Stage(files, manifest, smoked, None, hash, printTree, printManifest);
            && staged.Some? && FinalRecheck(staged.value.files, hash, parse, parseManifest, read)
            && !Completes(staged.value, hash, parse, parseManifest, read)
  {
    hide TreeOf, DriftAllowed, IsSha256, Declares, Prepared, FilesBound, FinalRecheck, Stage, SafeRelative;
    var tree := printTree(TreeOf(files, hash));
    var first := Bind(Bound(files, manifest), TreeOf(files, hash), hash, printTree, printManifest);
    var left := manifest.(treeSha := hash(tree), rest := rest);
    assert left == manifest.(rest := rest).(treeSha := hash(tree)) && IsSha256(hash(tree));
    RewrittenPairPasses(files, manifest, tree, left, hash, parse, printTree, printManifest, parseManifest, read);
    DescriptionsApart();
    assert first.files[PACKAGE_TREE := tree] == first.files;
  }
}
