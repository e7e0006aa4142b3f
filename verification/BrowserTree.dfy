/** browser_tree.py on Linux: the stack walk over an extracted browser, the manifest built from it
    and its verification. Hashing is a parameter; directories are read in the order `sorted` gives. */
module BrowserTree {
  import opened Commons

  type Path = seq<string>
  type Content = seq<int>
  type Hash = Content -> string

  /** What `os.scandir` shows. A directory that cannot be listed is passed over in silence. */
  datatype Node =
    | File(content: Content)
    | Dir(readable: bool, entries: seq<Child>)
    | Symlink
    | Other
    | Unstatable

  datatype Child = Child(name: string, node: Node)

  datatype Kind = IsFile | IsSymlink | IsOther | IsReparse

  datatype Entry = Entry(rel: Path, kind: Kind, content: Content)

  // ---- paths -------------------------------------------------------------

  predicate ValidName(name: string) {
    name != "" && '/' !in name
  }

  /** `as_posix` */
  function Posix(p: Path): string {
    if p == [] then ""
    else if |p| == 1 then p[0]
    else p[0] + "/" + Posix(p[1..])
  }

  lemma SplitUnique(a: string, x: string, b: string, y: string)
    requires '/' !in a && '/' !in b && a + "/" + x == b + "/" + y
    ensures a == b && x == y
  {
    var s := a + "/" + x;
    assert s[|a|] == '/' && (b + "/" + y)[|b|] == '/';
    assert forall i | 0 <= i < |a| :: s[i] == a[i];
    assert forall i | 0 <= i < |b| :: s[i] == b[i];
    assert s[..|a|] == a && (b + "/" + y)[..|b|] == b;
    assert s[|a| + 1..] == x && (b + "/" + y)[|b| + 1..] == y;
  }

  lemma SlashIffDeep(p: Path)
    requires p != [] && ValidName(p[0])
    ensures '/' in Posix(p) <==> |p| > 1
  {
    if |p| > 1 {
      assert Posix(p)[|p[0]|] == '/';
    }
  }

  lemma {:induction false} PosixInjective(p: Path, q: Path)
    requires p != [] && q != [] && Posix(p) == Posix(q)
    requires (forall n | n in p :: ValidName(n)) && (forall n | n in q :: ValidName(n))
    ensures p == q
  {
    assert p[0] in p && q[0] in q;
    assert ValidName(p[0]) && ValidName(q[0]);
    SlashIffDeep(p);
    SlashIffDeep(q);
    if |p| > 1 && |q| > 1 {
      SplitUnique(p[0], Posix(p[1..]), q[0], Posix(q[1..]));
      PosixInjective(p[1..], q[1..]);
    }
  }

  // ---- the tree as a list of entries -------------------------------------

  /** Sibling names are distinct and are names. */
  predicate WellFormed(node: Node) {
    node.Dir? ==>
      && (forall i, j | 0 <= i < j < |node.entries| :: node.entries[i].name != node.entries[j].name)
      && (forall c | c in node.entries :: ValidName(c.name) && WellFormed(c.node))
  }

  /** Everything reachable without following links, in directory order. */
  function Under(rel: Path, node: Node): seq<Entry>
    decreases node, 0
  {
    match node
    case File(content) => [Entry(rel, IsFile, content)]
    case Symlink => [Entry(rel, IsSymlink, [])]
    case Other => [Entry(rel, IsOther, [])]
    case Unstatable => [Entry(rel, IsReparse, [])]
    case Dir(readable, entries) => if readable then UnderAll(rel, entries) else []
  }

  function UnderAll(rel: Path, entries: seq<Child>): seq<Entry>
    decreases entries
  {
    if entries == [] then []
    else Under(rel + [entries[0].name], entries[0].node) + UnderAll(rel, entries[1..])
  }

  function Listing(root: Node): seq<Entry> {
    Under([], root)
  }

  // ---- the walk ----------------------------------------------------------

  datatype Frame = Frame(rel: Path, node: Node)

  function Pending(stack: seq<Frame>): multiset<Entry> {
    if stack == [] then multiset{}
    else Pending(stack[..|stack| - 1]) + multiset(Under(stack[|stack| - 1].rel, stack[|stack| - 1].node))
  }

  function Size(node: Node): nat
    decreases node, 0
  {
    if node.Dir? then 1 + SizeAll(node.entries) else 1
  }

  function SizeAll(entries: seq<Child>): nat
    decreases entries
  {
    if entries == [] then 0 else Size(entries[0].node) + SizeAll(entries[1..])
  }

  function StackSize(stack: seq<Frame>): nat {
    if stack == [] then 0 else StackSize(stack[..|stack| - 1]) + Size(stack[|stack| - 1].node)
  }

  lemma PendingPush(stack: seq<Frame>, f: Frame)
    ensures Pending(stack + [f]) == Pending(stack) + multiset(Under(f.rel, f.node))
    ensures StackSize(stack + [f]) == StackSize(stack) + Size(f.node)
  {
    assert (stack + [f])[..|stack|] == stack;
  }

  lemma UnderAllStep(rel: Path, children: seq<Child>, i: nat)
    requires i < |children|
    ensures UnderAll(rel, children[i..]) ==
            Under(rel + [children[i].name], children[i].node) + UnderAll(rel, children[i + 1..])
    ensures SizeAll(children[i..]) == Size(children[i].node) + SizeAll(children[i + 1..])
  {
    assert children[i..][1..] == children[i + 1..];
  }

  /** The body of the walk: one directory's children, each recorded or pushed. */
  method ScanDirectory(rel: Path, children: seq<Child>, entries: seq<Entry>, stack: seq<Frame>)
    returns (entries': seq<Entry>, stack': seq<Frame>)
    requires forall f | f in stack :: f.node.Dir?
    ensures forall f | f in stack' :: f.node.Dir?
    ensures multiset(entries') + Pending(stack') == multiset(entries) + Pending(stack) + multiset(UnderAll(rel, children))
    ensures StackSize(stack') <= StackSize(stack) + SizeAll(children)
  {
    entries', stack' := entries, stack;
    var i := 0;
    while i < |children|
      invariant 0 <= i <= |children|
      invariant forall f | f in stack' :: f.node.Dir?
      invariant multiset(entries') + Pending(stack') + multiset(UnderAll(rel, children[i..]))
                == multiset(entries) + Pending(stack) + multiset(UnderAll(rel, children))
      invariant StackSize(stack') + SizeAll(children[i..]) <= StackSize(stack) + SizeAll(children)
    {
      hide Pending, StackSize, UnderAll, SizeAll;
      var child := children[i];
      var path := rel + [child.name];
      UnderAllStep(rel, children, i);
      match child.node {
        case Unstatable => entries' := entries' + [Entry(path, IsReparse, [])];
        case Symlink => entries' := entries' + [Entry(path, IsSymlink, [])];
        case File(content) => entries' := entries' + [Entry(path, IsFile, content)];
        case Dir(_, _) =>
          PendingPush(stack', Frame(path, child.node));
          stack' := stack' + [Frame(path, child.node)];
        case Other => entries' := entries' + [Entry(path, IsOther, [])];
      }
      i := i + 1;
    }
  }

  /** `_walk_entries`: exactly the entries of the tree, each exactly as often as it is there. */
  method WalkEntries(root: Node) returns (entries: seq<Entry>)
    requires root.Dir?
    ensures multiset(entries) == multiset(Listing(root))
  {
    entries := [];
    var stack := [Frame([], root)];
    PendingPush([], Frame([], root));
    assert [] + [Frame([], root)] == stack;
    while stack != []
      invariant forall f | f in stack :: f.node.Dir?
      invariant multiset(entries) + Pending(stack) == multiset(Listing(root))
      decreases StackSize(stack)
    {
      var current := stack[|stack| - 1];
      assert stack == stack[..|stack| - 1] + [current];
      PendingPush(stack[..|stack| - 1], current);
      stack := stack[..|stack| - 1];
      if current.node.readable {
        entries, stack := ScanDirectory(current.rel, current.node.entries, entries, stack);
      }
    }
  }

  // ---- no entry is listed under two paths --------------------------------

  lemma {:induction false} UnderRels(rel: Path, node: Node)
    requires WellFormed(node)
    ensures forall e | e in Under(rel, node) :: rel <= e.rel && (forall n | n in e.rel[|rel|..] :: ValidName(n))
    ensures forall i, j | 0 <= i < j < |Under(rel, node)| :: Under(rel, node)[i].rel != Under(rel, node)[j].rel
    decreases node, 0
  {
    if node.Dir? && node.readable {
      UnderAllRels(rel, node.entries);
    }
  }

  lemma {:induction false} UnderAllRels(rel: Path, entries: seq<Child>)
    requires forall i, j | 0 <= i < j < |entries| :: entries[i].name != entries[j].name
    requires forall c | c in entries :: ValidName(c.name) && WellFormed(c.node)
    ensures forall e | e in UnderAll(rel, entries) ::
              && rel < e.rel && (exists c | c in entries :: e.rel[|rel|] == c.name)
              && (forall n | n in e.rel[|rel|..] :: ValidName(n))
    ensures forall i, j | 0 <= i < j < |UnderAll(rel, entries)| ::
              UnderAll(rel, entries)[i].rel != UnderAll(rel, entries)[j].rel
    decreases entries
  {
    if entries != [] {
      var c := entries[0];
      var first, rest := Under(rel + [c.name], c.node), UnderAll(rel, entries[1..]);
      assert c in entries;
      assert forall x | x in entries[1..] :: x in entries;
      UnderRels(rel + [c.name], c.node);
      UnderAllRels(rel, entries[1..]);
      forall e | e in first
        ensures rel < e.rel && e.rel[|rel|] == c.name && (forall n | n in e.rel[|rel|..] :: ValidName(n))
      {
        assert e.rel[|rel|..] == [c.name] + e.rel[|rel| + 1..];
      }
      forall e | e in rest
        ensures e.rel[|rel|] != c.name
      {
        var d :| d in entries[1..] && e.rel[|rel|] == d.name;
      }
    }
  }

  // ---- what is listed, by descending along names ---------------------------

  function ChildNamed(entries: seq<Child>, name: string): (node: Option<Node>)
    ensures node.Some? ==> Child(name, node.value) in entries
  {
    if entries == [] then None
    else if entries[0].name == name then Some(entries[0].node)
    else ChildNamed(entries[1..], name)
  }

  lemma {:induction false} FirstNamed(entries: seq<Child>, name: string)
    requires exists c | c in entries :: c.name == name
    requires forall i, j | 0 <= i < j < |entries| :: entries[i].name != entries[j].name
    ensures ChildNamed(entries, name).Some?
    ensures forall c | c in entries && c.name == name :: ChildNamed(entries, name) == Some(c.node)
  {
    if entries[0].name == name {
      forall c | c in entries && c.name == name
        ensures c == entries[0]
      {
        var i :| 0 <= i < |entries| && entries[i] == c;
      }
    } else {
      var c :| c in entries && c.name == name;
      assert c in entries[1..];
      FirstNamed(entries[1..], name);
    }
  }

  /** What a path leads to, name by name through directories that can be listed; a symlink leads nowhere. */
  function NodeAt(root: Node, rel: Path): Option<Node>
    decreases |rel|
  {
    if rel == [] then Some(root)
    else if !root.Dir? || !root.readable then None
    else
      match ChildNamed(root.entries, rel[0])
      case None => None
      case Some(node) => NodeAt(node, rel[1..])
  }

  /** How a node that is no directory is reported. */
  predicate Shows(node: Node, kind: Kind, content: Content) {
    match node
    case File(bytes) => kind == IsFile && content == bytes
    case Symlink => kind == IsSymlink && content == []
    case Other => kind == IsOther && content == []
    case Unstatable => kind == IsReparse && content == []
    case Dir(_, _) => false
  }

  ghost predicate Leads(root: Node, rel: Path, e: Entry) {
    rel <= e.rel && NodeAt(root, e.rel[|rel|..]).Some? && Shows(NodeAt(root, e.rel[|rel|..]).value, e.kind, e.content)
  }

  lemma {:induction false} UnderAllIff(rel: Path, entries: seq<Child>, e: Entry)
    ensures e in UnderAll(rel, entries) <==> exists c :: c in entries && e in Under(rel + [c.name], c.node)
    decreases entries
  {
    if entries != [] {
      UnderAllIff(rel, entries[1..], e);
      assert entries == [entries[0]] + entries[1..];
      if e in Under(rel + [entries[0].name], entries[0].node) { assert entries[0] in entries; }
    }
  }

  lemma {:induction false} UnderIff(rel: Path, node: Node, e: Entry)
    requires WellFormed(node)
    ensures e in Under(rel, node) <==> Leads(node, rel, e)
    decreases node, 0
  {
    if node.Dir? {
      if node.readable {
        UnderAllIff(rel, node.entries, e);
        forall c | c in node.entries
          ensures e in Under(rel + [c.name], c.node) <==> Leads(c.node, rel + [c.name], e)
        {
          UnderIff(rel + [c.name], c.node, e);
        }
        ChildLeads(rel, node, e);
      }
    } else {
      LeafLeads(rel, node, e);
    }
  }

  lemma LeafLeads(rel: Path, node: Node, e: Entry)
    requires !node.Dir?
    ensures e in Under(rel, node) <==> Leads(node, rel, e)
  {
    assert NodeAt(node, []) == Some(node);
    if rel <= e.rel {
      assert e.rel == rel + e.rel[|rel|..];
      assert e.rel[|rel|..] != [] ==> NodeAt(node, e.rel[|rel|..]).None?;
      assert e.rel[|rel|..] == [] <==> e.rel == rel;
    }
    assert e == Entry(e.rel, e.kind, e.content);
  }

  lemma ChildLeads(rel: Path, node: Node, e: Entry)
    requires node.Dir? && node.readable && WellFormed(node)
    ensures Leads(node, rel, e) <==> exists c :: c in node.entries && Leads(c.node, rel + [c.name], e)
  {
    if Leads(node, rel, e) {
      var rest := e.rel[|rel|..];
      assert rest != [];
      var c := Child(rest[0], ChildNamed(node.entries, rest[0]).value);
      assert e.rel == rel + [rest[0]] + rest[1..];
      assert e.rel[|rel + [c.name]|..] == rest[1..];
      assert c in node.entries && Leads(c.node, rel + [c.name], e);
    }
    if exists c :: c in node.entries && Leads(c.node, rel + [c.name], e) {
      var c :| c in node.entries && Leads(c.node, rel + [c.name], e);
      var rest := e.rel[|rel|..];
      assert rest[0] == c.name && rest[1..] == e.rel[|rel + [c.name]|..];
      FirstNamed(node.entries, c.name);
    }
  }

  /** The listing says what is there: an entry is listed exactly when its path leads to a node that is no directory, and
      it is reported as what that node is, a file with the bytes it has. */
  lemma ListingIff(root: Node, e: Entry)
    requires WellFormed(root)
    ensures e in Listing(root) <==>
              NodeAt(root, e.rel).Some? && Shows(NodeAt(root, e.rel).value, e.kind, e.content)
  {
    UnderIff([], root, e);
    assert e.rel[0..] == e.rel;
  }

  /** A leaf that is no regular file. */
  predicate Irregular(node: Node) { node.Symlink? || node.Other? || node.Unstatable? }

  lemma IrregularIff(root: Node)
    requires WellFormed(root)
    ensures HasIrregular(Listing(root)) <==> exists rel :: NodeAt(root, rel).Some? && Irregular(NodeAt(root, rel).value)
  {
    if HasIrregular(Listing(root)) {
      var e :| e in Listing(root) && e.kind != IsFile;
      ListingIff(root, e);
      assert NodeAt(root, e.rel).Some? && Irregular(NodeAt(root, e.rel).value);
    }
    if exists rel :: NodeAt(root, rel).Some? && Irregular(NodeAt(root, rel).value) {
      var rel :| NodeAt(root, rel).Some? && Irregular(NodeAt(root, rel).value);
      var node := NodeAt(root, rel).value;
      var e := Entry(rel, if node.Symlink? then IsSymlink else if node.Other? then IsOther else IsReparse, []);
      ListingIff(root, e);
      assert e in Listing(root) && e.kind != IsFile;
    }
  }

  lemma FileListed(root: Node, rel: Path, content: Content)
    requires WellFormed(root)
    ensures Entry(rel, IsFile, content) in Listing(root) <==> NodeAt(root, rel) == Some(File(content))
  {
    ListingIff(root, Entry(rel, IsFile, content));
  }

  // ---- manifests ---------------------------------------------------------

  datatype Item = Item(path: string, size: nat, sha256: string)

  datatype Manifest = Manifest(fileCount: nat, totalBytes: nat, items: seq<Item>)

  predicate HasIrregular(entries: seq<Entry>) {
    exists e | e in entries :: e.kind != IsFile
  }

  function ItemOf(e: Entry, hash: Hash): Item {
    Item(Posix(e.rel), |e.content|, hash(e.content))
  }

  function ItemsOf(entries: seq<Entry>, hash: Hash): (items: seq<Item>)
    ensures |items| == |entries| && forall i | 0 <= i < |items| :: items[i] == ItemOf(entries[i], hash)
  {
    seq(|entries|, i requires 0 <= i < |entries| => ItemOf(entries[i], hash))
  }

  function TotalBytes(items: seq<Item>): nat {
    if items == [] then 0 else TotalBytes(items[..|items| - 1]) + items[|items| - 1].size
  }

  /** `build_tree_manifest`; None is the TreeIntegrityError over irregular entries. */
  method BuildTreeManifest(root: Node, hash: Hash) returns (manifest: Option<Manifest>, ghost walked: seq<Entry>)
    requires root.Dir?
    ensures multiset(walked) == multiset(Listing(root))
    ensures manifest.None? <==> HasIrregular(Listing(root))
    ensures manifest.Some? ==>
              var items := ItemsOf(walked, hash);
              manifest.value == Manifest(|items|, TotalBytes(items), items)
  {
    var entries := WalkEntries(root);
    walked := entries;
    SameMembers(entries, Listing(root));
    var items: seq<Item> := [];
    var irregular := 0;
    var i := 0;
    while i < |entries|
      invariant 0 <= i <= |entries|
      invariant irregular > 0 <==> HasIrregular(entries[..i])
      invariant irregular == 0 ==> items == ItemsOf(entries[..i], hash)
    {
      assert entries[..i + 1] == entries[..i] + [entries[i]];
      if entries[i].kind != IsFile {
        irregular := irregular + 1;
      } else {
        items := items + [ItemOf(entries[i], hash)];
      }
      i := i + 1;
    }
    assert entries[..i] == entries;
    if irregular > 0 { return None, walked; }
    manifest := Some(Manifest(|items|, TotalBytes(items), items));
  }

  lemma SameMembers<T>(a: seq<T>, b: seq<T>)
    requires multiset(a) == multiset(b)
    ensures forall x :: x in a <==> x in b
  {
    forall x
      ensures x in a <==> x in b
    {
      assert x in a <==> x in multiset(a);
      assert x in b <==> x in multiset(b);
    }
  }

  /** The item is of the regular file the path leads to. */
  predicate IsItemOf(root: Node, rel: Path, item: Item, hash: Hash) {
    && NodeAt(root, rel).Some? && NodeAt(root, rel).value.File?
    && item == Item(Posix(rel), |NodeAt(root, rel).value.content|, hash(NodeAt(root, rel).value.content))
  }

  /** A manifest is of the files there are: it is refused exactly when a path leads to something that is neither a
      directory nor a regular file; otherwise it has one item for each file, with the file's own size and digest. */
  lemma ManifestIsOfFiles(root: Node, walked: seq<Entry>, hash: Hash)
    requires root.Dir? && WellFormed(root) && multiset(walked) == multiset(Listing(root))
    ensures HasIrregular(Listing(root)) <==> exists rel :: NodeAt(root, rel).Some? && Irregular(NodeAt(root, rel).value)
    ensures !HasIrregular(Listing(root)) ==>
              && (forall item :: item in ItemsOf(walked, hash) <==> exists rel :: IsItemOf(root, rel, item, hash))
              && (forall i, j | 0 <= i < j < |walked| :: ItemsOf(walked, hash)[i].path != ItemsOf(walked, hash)[j].path)
  {
    IrregularIff(root);
    SameMembers(walked, Listing(root));
    WalkedPathsDistinct(root, walked);
    var items := ItemsOf(walked, hash);
    hide Posix, Listing, NodeAt;
    if !HasIrregular(Listing(root)) {
      forall item
        ensures item in items <==> exists rel :: IsItemOf(root, rel, item, hash)
      {
        if item in items {
          var i :| 0 <= i < |items| && items[i] == item;
          var e := walked[i];
          assert e in walked && e.kind == IsFile;
          FileListed(root, e.rel, e.content);
          assert IsItemOf(root, e.rel, item, hash);
        }
        if exists rel :: IsItemOf(root, rel, item, hash) {
          var rel :| IsItemOf(root, rel, item, hash);
          var e := Entry(rel, IsFile, NodeAt(root, rel).value.content);
          FileListed(root, rel, e.content);
          var i :| 0 <= i < |walked| && walked[i] == e;
          assert items[i] == ItemOf(e, hash);
        }
      }
    }
  }

  /** `replace("\\", "/")` */
  function Normalized(path: string): (n: string)
    ensures |n| == |path| && forall i | 0 <= i < |path| :: n[i] == (if path[i] == '\\' then '/' else path[i])
  {
    seq(|path|, i requires 0 <= i < |path| => if path[i] == '\\' then '/' else path[i])
  }

  /** `expected`: the last item of a key wins, at the place of the first. */
  function Expected(items: seq<Item>): map<string, Item> {
    if items == [] then map[]
    else Expected(items[..|items| - 1])[Normalized(items[|items| - 1].path) := items[|items| - 1]]
  }

  function KeyOrder(items: seq<Item>): (keys: seq<string>)
    ensures forall k :: k in keys <==> k in Expected(items)
    ensures forall i, j | 0 <= i < j < |keys| :: keys[i] != keys[j]
  {
    if items == [] then []
    else
      var keys := KeyOrder(items[..|items| - 1]);
      var k := Normalized(items[|items| - 1].path);
      if k in keys then keys else keys + [k]
  }

  const RUNTIME_TREE_EXTRAS := {"version.json"}

  /** Digests of an earlier scan, if the caller has them. */
  type Digests = Option<map<string, string>>

  /** The digest `verify_tree` compares for the file at key. */
  function DigestOf(key: string, content: Content, hash: Hash, digests: Digests): Option<string> {
    match digests
    case None => Some(hash(content))
    case Some(known) => if key in known then Some(known[key]) else None
  }

  predicate ItemMatches(key: string, item: Item, content: Content, hash: Hash, digests: Digests) {
    |content| == item.size && DigestOf(key, content, hash, digests) == Some(item.sha256)
  }

  /** What a verified tree is, with no reference to how it is walked or to any cap on messages. */
  ghost predicate TreeMatches(root: Node, items: seq<Item>, hash: Hash, digests: Digests) {
    var listing := Listing(root);
    && !HasIrregular(listing)
    && (forall e | e in listing :: Posix(e.rel) in Expected(items) || Posix(e.rel) in RUNTIME_TREE_EXTRAS)
    && (forall k | k in Expected(items) ::
          exists e | e in listing :: Posix(e.rel) == k && ItemMatches(k, Expected(items)[k], e.content, hash, digests))
  }

  /** A tree matches exactly when every path that leads to no directory leads to a regular file that is listed in the
      manifest or is the runtime extra, and every path in the manifest leads to a file of that size and digest. */
  lemma MatchesByNodes(root: Node, items: seq<Item>, hash: Hash, digests: Digests)
    requires root.Dir? && WellFormed(root)
    ensures TreeMatches(root, items, hash, digests) <==>
              && (forall rel | NodeAt(root, rel).Some? && !NodeAt(root, rel).value.Dir? ::
                    && NodeAt(root, rel).value.File?
                    && (Posix(rel) in Expected(items) || Posix(rel) in RUNTIME_TREE_EXTRAS))
              && (forall k | k in Expected(items) :: FoundAt(root, k, Expected(items)[k], hash, digests))
  {
    hide Posix, Expected, Listing, NodeAt, ItemMatches, HasIrregular, FoundAt;
    IrregularIff(root);
    LeavesAreListed(root, items);
    forall k | k in Expected(items)
      ensures !HasIrregular(Listing(root)) ==>
                (FoundAt(root, k, Expected(items)[k], hash, digests) <==>
                 exists e | e in Listing(root) :: Posix(e.rel) == k && ItemMatches(k, Expected(items)[k], e.content, hash, digests))
    {
      FoundIsListed(root, k, Expected(items)[k], hash, digests);
      AllRegular(Listing(root));
    }
  }

  lemma AllRegular(entries: seq<Entry>)
    ensures !HasIrregular(entries) ==> forall e | e in entries :: e.kind == IsFile
  {
  }

  lemma LeavesAreListed(root: Node, items: seq<Item>)
    requires WellFormed(root)
    ensures (forall rel | NodeAt(root, rel).Some? && !NodeAt(root, rel).value.Dir? ::
               NodeAt(root, rel).value.File? && (Posix(rel) in Expected(items) || Posix(rel) in RUNTIME_TREE_EXTRAS))
       <==> && !HasIrregular(Listing(root))
            && forall e | e in Listing(root) :: Posix(e.rel) in Expected(items) || Posix(e.rel) in RUNTIME_TREE_EXTRAS
  {
    hide Posix, Expected, Listing, NodeAt;
    IrregularIff(root);
    forall rel | NodeAt(root, rel).Some? && NodeAt(root, rel).value.File?
      ensures Entry(rel, IsFile, NodeAt(root, rel).value.content) in Listing(root)
    {
      FileListed(root, rel, NodeAt(root, rel).value.content);
    }
    forall e | e in Listing(root)
      ensures NodeAt(root, e.rel).Some? && !NodeAt(root, e.rel).value.Dir?
    {
      ListingIff(root, e);
    }
  }

  ghost predicate FoundAt(root: Node, key: string, item: Item, hash: Hash, digests: Digests) {
    exists rel ::
      && NodeAt(root, rel).Some? && NodeAt(root, rel).value.File? && Posix(rel) == key
      && ItemMatches(key, item, NodeAt(root, rel).value.content, hash, digests)
  }

  lemma FoundIsListed(root: Node, key: string, item: Item, hash: Hash, digests: Digests)
    requires WellFormed(root)
    ensures FoundAt(root, key, item, hash, digests) <==>
              exists e | e in Listing(root) && e.kind == IsFile ::
                Posix(e.rel) == key && ItemMatches(key, item, e.content, hash, digests)
  {
    hide Posix, Listing, NodeAt, ItemMatches;
    if FoundAt(root, key, item, hash, digests) {
      var rel :| NodeAt(root, rel).Some? && NodeAt(root, rel).value.File? && Posix(rel) == key
                 && ItemMatches(key, item, NodeAt(root, rel).value.content, hash, digests);
      var e := Entry(rel, IsFile, NodeAt(root, rel).value.content);
      FileListed(root, rel, e.content);
      assert e in Listing(root) && e.kind == IsFile;
    }
    if exists e | e in Listing(root) && e.kind == IsFile ::
         Posix(e.rel) == key && ItemMatches(key, item, e.content, hash, digests) {
      var e :| e in Listing(root) && e.kind == IsFile && Posix(e.rel) == key && ItemMatches(key, item, e.content, hash, digests);
      FileListed(root, e.rel, e.content);
      assert NodeAt(root, e.rel).value.content == e.content;
    }
  }

  // ---- verification ------------------------------------------------------

  predicate DistinctRels(entries: seq<Entry>) {
    forall i, j | 0 <= i < j < |entries| :: entries[i].rel != entries[j].rel
  }

  lemma {:induction false} CountOne(entries: seq<Entry>, e: Entry)
    requires DistinctRels(entries)
    ensures multiset(entries)[e] <= 1
  {
    if entries != [] {
      CountOne(entries[1..], e);
      assert entries == [entries[0]] + entries[1..];
      if entries[0] == e {
        assert forall x | x in entries[1..] :: x.rel != e.rel;
        assert e !in multiset(entries[1..]);
      }
    }
  }

  /** Whatever order the walk produces, no two of its entries have the same path. */
  lemma PermutationDistinct(walked: seq<Entry>, listing: seq<Entry>)
    requires multiset(walked) == multiset(listing) && DistinctRels(listing)
    ensures DistinctRels(walked)
  {
    SameMembers(walked, listing);
    forall i, j | 0 <= i < j < |walked|
      ensures walked[i].rel != walked[j].rel
    {
      if walked[i] == walked[j] {
        var e := walked[i];
        assert walked == walked[..i] + [e] + walked[i + 1..j] + [e] + walked[j + 1..];
        assert multiset(walked)[e] >= 2;
        CountOne(listing, e);
      } else {
        assert walked[i] in walked && walked[j] in walked;
        var a :| 0 <= a < |listing| && listing[a] == walked[i];
        var b :| 0 <= b < |listing| && listing[b] == walked[j];
        assert a != b;
      }
    }
  }

  predicate DistinctPaths(entries: seq<Entry>) {
    forall i, j | 0 <= i < j < |entries| :: Posix(entries[i].rel) != Posix(entries[j].rel)
  }

  /** The relative POSIX paths the walk reports are all different. */
  lemma WalkedPathsDistinct(root: Node, walked: seq<Entry>)
    requires root.Dir? && WellFormed(root) && multiset(walked) == multiset(Listing(root))
    ensures DistinctPaths(walked)
  {
    var listing := Listing(root);
    UnderRels([], root);
    SameMembers(walked, listing);
    PermutationDistinct(walked, listing);
    forall e | e in walked
      ensures e.rel != [] && forall n | n in e.rel :: ValidName(n)
    {
      assert e in listing && e.rel[0..] == e.rel;
      if root.readable { UnderAllRels([], root.entries); }
    }
    forall i, j | 0 <= i < j < |walked|
      ensures Posix(walked[i].rel) != Posix(walked[j].rel)
    {
      assert walked[i] in walked && walked[j] in walked;
      if Posix(walked[i].rel) == Posix(walked[j].rel) { PosixInjective(walked[i].rel, walked[j].rel); }
    }
  }

  /** The file map is the listing. */
  ghost predicate IndexOf(actual: map<string, Content>, entries: seq<Entry>) {
    && (forall e | e in entries && e.kind == IsFile :: Posix(e.rel) in actual && actual[Posix(e.rel)] == e.content)
    && (forall k | k in actual :: exists e | e in entries :: e.kind == IsFile && Posix(e.rel) == k)
  }

  lemma IndexNext(actual: map<string, Content>, entries: seq<Entry>, e: Entry)
    requires IndexOf(actual, entries) && forall x | x in entries :: Posix(x.rel) != Posix(e.rel)
    ensures Posix(e.rel) !in actual
    ensures e.kind == IsFile ==> IndexOf(actual[Posix(e.rel) := e.content], entries + [e])
    ensures e.kind != IsFile ==> IndexOf(actual, entries + [e])
  {
    hide Posix;
    var more := entries + [e];
    forall x | x in entries
      ensures x in more
    {
    }
    assert more[|entries|] == e;
  }

  /** The first loop of `verify_tree`. The collision branch is there, and is never taken. */
  method IndexFiles(entries: seq<Entry>) returns (actual: map<string, Content>, irregular: int)
    requires DistinctPaths(entries)
    ensures 0 <= irregular && (irregular > 0 <==> HasIrregular(entries))
    ensures IndexOf(actual, entries)
  {
    actual, irregular := map[], 0;
    var i := 0;
    while i < |entries|
      invariant 0 <= i <= |entries| && 0 <= irregular
      invariant irregular > 0 <==> HasIrregular(entries[..i])
      invariant IndexOf(actual, entries[..i])
    {
      hide Posix, IndexOf;
      var e := entries[i];
      assert entries[..i + 1] == entries[..i] + [e];
      var key := Posix(e.rel);
      assert forall x | x in entries[..i] :: Posix(x.rel) != key;
      IndexNext(actual, entries[..i], e);
      if e.kind == IsFile {
        if key in actual { irregular := irregular + 1; }
        actual := actual[key := e.content];
      } else {
        irregular := irregular + 1;
      }
      i := i + 1;
    }
    assert entries[..i] == entries;
  }

  predicate PresentMatches(key: string, expected: map<string, Item>, actual: map<string, Content>, hash: Hash, digests: Digests)
    requires key in expected
  {
    key in actual ==> ItemMatches(key, expected[key], actual[key], hash, digests)
  }

  /** The last loop of `verify_tree`: compare what is present, giving up at the error cap. */
  method CompareFiles(expected: map<string, Item>, order: seq<string>, actual: map<string, Content>,
                      errorCap: int, hash: Hash, digests: Digests)
    returns (mismatched: nat)
    requires forall k :: k in order <==> k in expected
    ensures mismatched == 0 <==> forall k | k in expected :: PresentMatches(k, expected, actual, hash, digests)
  {
    mismatched := 0;
    var i := 0;
    while i < |order|
      invariant 0 <= i <= |order|
      invariant mismatched == 0 <==> forall k | k in order[..i] :: PresentMatches(k, expected, actual, hash, digests)
    {
      var rel := order[i];
      assert order[..i + 1] == order[..i] + [rel];
      i := i + 1;
      if rel in actual {
        if |actual[rel]| != expected[rel].size || DigestOf(rel, actual[rel], hash, digests) != Some(expected[rel].sha256) {
          mismatched := mismatched + 1;
          assert rel in order[..i];
          if mismatched >= errorCap { break; }
        }
      }
    }
    if i == |order| { assert order[..i] == order; }
  }

  datatype Verified = Verified(fileCount: nat, totalBytes: nat)

  function SizeOf(items: map<string, Item>, keys: seq<string>): nat
    requires forall k | k in keys :: k in items
  {
    if keys == [] then 0 else SizeOf(items, keys[..|keys| - 1]) + items[keys[|keys| - 1]].size
  }

  /** `verify_tree`: success exactly when the tree matches, for every cap on the error messages and
      whether the digests are computed or handed in. None is the TreeIntegrityError. */
  method VerifyTree(root: Node, items: seq<Item>, errorCap: int, hash: Hash, digests: Digests)
    returns (verified: Option<Verified>)
    requires root.Dir? && WellFormed(root)
    ensures verified.Some? <==> TreeMatches(root, items, hash, digests)
    ensures verified.Some? ==>
              verified.value == Verified(|Expected(items)|, SizeOf(Expected(items), KeyOrder(items)))
  {
    var expected := Expected(items);
    var entries := WalkEntries(root);
    WalkedPathsDistinct(root, entries);
    var actual, irregular := IndexFiles(entries);
    var missing := expected.Keys - actual.Keys;
    var extra := actual.Keys - expected.Keys - RUNTIME_TREE_EXTRAS;
    var mismatched := CompareFiles(expected, KeyOrder(items), actual, errorCap, hash, digests);
    VerdictIsMatch(root, items, entries, actual, irregular, missing, extra, mismatched, hash, digests);
    if irregular > 0 || missing != {} || extra != {} || mismatched > 0 { return None; }
    verified := Some(Verified(|expected|, SizeOf(expected, KeyOrder(items))));
  }

  lemma VerdictIsMatch(root: Node, items: seq<Item>, entries: seq<Entry>, actual: map<string, Content>, irregular: int,
                       missing: set<string>, extra: set<string>, mismatched: nat, hash: Hash, digests: Digests)
    requires multiset(entries) == multiset(Listing(root)) && DistinctPaths(entries) && IndexOf(actual, entries)
    requires 0 <= irregular && (irregular > 0 <==> HasIrregular(entries))
    requires missing == Expected(items).Keys - actual.Keys
    requires extra == actual.Keys - Expected(items).Keys - RUNTIME_TREE_EXTRAS
    requires mismatched == 0 <==>
               forall k | k in Expected(items) :: PresentMatches(k, Expected(items), actual, hash, digests)
    ensures irregular == 0 && missing == {} && extra == {} && mismatched == 0 <==> TreeMatches(root, items, hash, digests)
  {
    hide Posix, Expected, DigestOf;
    SameMembers(entries, Listing(root));
    if irregular == 0 && missing == {} && extra == {} && mismatched == 0 {
      forall k | k in Expected(items)
        ensures exists e | e in Listing(root) ::
                  Posix(e.rel) == k && ItemMatches(k, Expected(items)[k], e.content, hash, digests)
      {
        assert k !in missing && PresentMatches(k, Expected(items), actual, hash, digests);
        var e :| e in entries && e.kind == IsFile && Posix(e.rel) == k;
      }
      forall e | e in Listing(root)
        ensures Posix(e.rel) in Expected(items) || Posix(e.rel) in RUNTIME_TREE_EXTRAS
      {
        assert e in entries && Posix(e.rel) !in extra;
      }
    }
    if TreeMatches(root, items, hash, digests) {
      MatchMeansVerdict(root, items, entries, actual, hash, digests);
    }
  }

  lemma MatchMeansVerdict(root: Node, items: seq<Item>, entries: seq<Entry>, actual: map<string, Content>,
                          hash: Hash, digests: Digests)
    requires TreeMatches(root, items, hash, digests)
    requires multiset(entries) == multiset(Listing(root)) && DistinctPaths(entries) && IndexOf(actual, entries)
    ensures !HasIrregular(entries) && Expected(items).Keys <= actual.Keys
    ensures actual.Keys <= Expected(items).Keys + RUNTIME_TREE_EXTRAS
    ensures forall k | k in Expected(items) :: PresentMatches(k, Expected(items), actual, hash, digests)
  {
    hide Posix, Expected, DigestOf;
    SameMembers(entries, Listing(root));
    forall k | k in Expected(items)
      ensures k in actual && PresentMatches(k, Expected(items), actual, hash, digests)
    {
      var e :| e in Listing(root) && Posix(e.rel) == k && ItemMatches(k, Expected(items)[k], e.content, hash, digests);
      assert e in entries;
    }
    forall k | k in actual
      ensures k in Expected(items) || k in RUNTIME_TREE_EXTRAS
    {
      var e :| e in entries && e.kind == IsFile && Posix(e.rel) == k;
      assert e in Listing(root);
    }
  }

  // ---- a built manifest verifies -----------------------------------------

  predicate DistinctKeys(items: seq<Item>) {
    forall i, j | 0 <= i < j < |items| :: Normalized(items[i].path) != Normalized(items[j].path)
  }

  /** Without clashes the lookup table is just the items. */
  lemma {:induction false} ExpectedLookup(items: seq<Item>)
    requires DistinctKeys(items)
    ensures forall i | 0 <= i < |items| ::
              Normalized(items[i].path) in Expected(items) && Expected(items)[Normalized(items[i].path)] == items[i]
    ensures forall k | k in Expected(items) :: exists i | 0 <= i < |items| :: k == Normalized(items[i].path)
  {
    hide Normalized;
    if items != [] {
      var front, last := items[..|items| - 1], items[|items| - 1];
      ExpectedLookup(front);
      forall i | 0 <= i < |items|
        ensures Normalized(items[i].path) in Expected(items) && Expected(items)[Normalized(items[i].path)] == items[i]
      {
        assert i < |front| ==> front[i] == items[i];
      }
      forall key | key in Expected(items)
        ensures exists i | 0 <= i < |items| :: key == Normalized(items[i].path)
      {
        if key in Expected(front) {
          var i :| 0 <= i < |front| && key == Normalized(front[i].path);
          assert front[i] == items[i];
        } else {
          assert key == Normalized(items[|items| - 1].path);
        }
      }
    }
  }

  /** And its summary is the summary of the items. */
  lemma {:induction false} ExpectedSummary(items: seq<Item>)
    requires DistinctKeys(items)
    ensures |Expected(items)| == |items|
    ensures SizeOf(Expected(items), KeyOrder(items)) == TotalBytes(items)
  {
    hide Normalized, SizeOf, Expected;
    if items == [] {
      NothingExpected();
    } else {
      ExpectedSummary(items[..|items| - 1]);
      ExpectedNext(items);
    }
  }

  lemma NothingExpected()
    ensures Expected([]) == map[] && SizeOf(map[], []) == 0
  {
  }

  lemma ExpectedNext(items: seq<Item>)
    requires DistinctKeys(items) && items != []
    ensures var front, last := items[..|items| - 1], items[|items| - 1];
            && |Expected(items)| == |Expected(front)| + 1
            && SizeOf(Expected(items), KeyOrder(items)) == SizeOf(Expected(front), KeyOrder(front)) + last.size
  {
    hide Normalized;
    var front, last := items[..|items| - 1], items[|items| - 1];
    var k := Normalized(last.path);
    assert k !in Expected(front) by {
      ExpectedLookup(front);
      forall i | 0 <= i < |front|
        ensures Normalized(front[i].path) != k
      {
        assert front[i] == items[i];
      }
    }
    hide Expected;
    assert Expected(items) == Expected(front)[k := last] by { ExpectedUnfolds(items); }
    assert KeyOrder(items) == KeyOrder(front) + [k];
    assert KeyOrder(items)[..|KeyOrder(items)| - 1] == KeyOrder(front);
    SizeOfExtends(Expected(front), Expected(items), KeyOrder(front));
  }

  lemma ExpectedUnfolds(items: seq<Item>)
    requires items != []
    ensures Expected(items) == Expected(items[..|items| - 1])[Normalized(items[|items| - 1].path) := items[|items| - 1]]
  {
  }

  lemma {:induction false} SizeOfExtends(a: map<string, Item>, b: map<string, Item>, keys: seq<string>)
    requires forall k | k in keys :: k in a && k in b && a[k] == b[k]
    ensures SizeOf(a, keys) == SizeOf(b, keys)
  {
    if keys != [] { SizeOfExtends(a, b, keys[..|keys| - 1]); }
  }

  lemma ExpectedKeysNormal(items: seq<Item>, k: string)
    requires k in Expected(items)
    ensures '\\' !in k
  {
  }

  predicate NoBackslash(root: Node) {
    forall e | e in Listing(root) :: '\\' !in Posix(e.rel)
  }

  /** A tree of regular files verifies against its own manifest exactly when no path has a backslash in it:
      the manifest side rewrites backslashes, the tree side does not. */
  lemma BuiltManifestVerifies(root: Node, walked: seq<Entry>, hash: Hash)
    requires root.Dir? && WellFormed(root) && multiset(walked) == multiset(Listing(root))
    requires !HasIrregular(Listing(root))
    ensures TreeMatches(root, ItemsOf(walked, hash), hash, None) <==> NoBackslash(root)
  {
    SameMembers(walked, Listing(root));
    WalkedPathsDistinct(root, walked);
    if NoBackslash(root) {
      CleanManifestVerifies(root, walked, hash);
    } else {
      BackslashFails(root, ItemsOf(walked, hash), hash);
    }
  }

  lemma BackslashFails(root: Node, items: seq<Item>, hash: Hash)
    requires !NoBackslash(root)
    ensures !TreeMatches(root, items, hash, None)
  {
    hide Posix, Expected, Listing;
    var e :| e in Listing(root) && '\\' in Posix(e.rel);
    if Posix(e.rel) in Expected(items) { ExpectedKeysNormal(items, Posix(e.rel)); }
    assert Posix(e.rel) !in RUNTIME_TREE_EXTRAS;
  }

  lemma CleanManifestVerifies(root: Node, walked: seq<Entry>, hash: Hash)
    requires root.Dir? && !HasIrregular(Listing(root)) && NoBackslash(root) && DistinctPaths(walked)
    requires forall e :: e in walked <==> e in Listing(root)
    ensures TreeMatches(root, ItemsOf(walked, hash), hash, None)
  {
    hide Posix, Expected, Listing;
    var items := ItemsOf(walked, hash);
    forall i | 0 <= i < |items|
      ensures Normalized(items[i].path) == items[i].path == Posix(walked[i].rel)
    {
      assert walked[i] in walked;
    }
    hide Normalized;
    assert DistinctKeys(items);
    ExpectedLookup(items);
    forall e | e in Listing(root)
      ensures Posix(e.rel) in Expected(items)
    {
      assert e in walked;
      var i :| 0 <= i < |walked| && walked[i] == e;
      assert Normalized(items[i].path) in Expected(items);
    }
    forall k | k in Expected(items)
      ensures exists e | e in Listing(root) :: Posix(e.rel) == k && ItemMatches(k, Expected(items)[k], e.content, hash, None)
    {
      var i :| 0 <= i < |items| && k == Normalized(items[i].path);
      assert walked[i] in walked && items[i] == ItemOf(walked[i], hash);
    }
  }

  // ---- what verification buys --------------------------------------------

  /** Handing in digests of an earlier scan changes nothing, when the scan covered every file and its
      digests are the ones hashing would give. */
  lemma ReusedDigestsAgree(root: Node, items: seq<Item>, hash: Hash, known: map<string, string>)
    requires forall e | e in Listing(root) && e.kind == IsFile ::
               Posix(e.rel) in known && known[Posix(e.rel)] == hash(e.content)
    ensures TreeMatches(root, items, hash, Some(known)) <==> TreeMatches(root, items, hash, None)
  {
    hide Posix, Expected;
    if !HasIrregular(Listing(root)) {
      forall e, k, item | e in Listing(root) && Posix(e.rel) == k
        ensures ItemMatches(k, item, e.content, hash, Some(known)) == ItemMatches(k, item, e.content, hash, None)
      {
      }
      if TreeMatches(root, items, hash, Some(known)) {
        forall k | k in Expected(items)
          ensures exists e | e in Listing(root) :: Posix(e.rel) == k && ItemMatches(k, Expected(items)[k], e.content, hash, None)
        {
          var e :| e in Listing(root) && Posix(e.rel) == k && ItemMatches(k, Expected(items)[k], e.content, hash, Some(known));
        }
      }
      if TreeMatches(root, items, hash, None) {
        forall k | k in Expected(items)
          ensures exists e | e in Listing(root) ::
                    Posix(e.rel) == k && ItemMatches(k, Expected(items)[k], e.content, hash, Some(known))
        {
          var e :| e in Listing(root) && Posix(e.rel) == k && ItemMatches(k, Expected(items)[k], e.content, hash, None);
        }
      }
    }
  }

  /** Two trees that verify against one manifest hold the same files, path by path and byte by byte, unless
      the hash collides on contents of one length; only an unlisted root version.json may differ. */
  lemma VerifiedTreesAgree(root: Node, other: Node, items: seq<Item>, hash: Hash, e: Entry)
    requires TreeMatches(root, items, hash, None) && TreeMatches(other, items, hash, None)
    requires root.Dir? && other.Dir? && WellFormed(root) && WellFormed(other)
    requires forall a, b | a in Listing(root) && b in Listing(other) ::
               |a.content| == |b.content| && hash(a.content) == hash(b.content) ==> a.content == b.content
    requires e in Listing(root) && Posix(e.rel) !in RUNTIME_TREE_EXTRAS
    ensures e in Listing(other)
  {
    var k := Posix(e.rel);
    var item := Expected(items)[k];
    var mine :| mine in Listing(root) && Posix(mine.rel) == k && ItemMatches(k, item, mine.content, hash, None);
    var theirs :| theirs in Listing(other) && Posix(theirs.rel) == k && ItemMatches(k, item, theirs.content, hash, None);
    SamePathSameEntry(root, e, mine);
    SamePathSameRel(root, other, mine, theirs);
    assert mine.content == theirs.content;
  }

  lemma RelsAreNames(root: Node, e: Entry)
    requires root.Dir? && WellFormed(root) && e in Listing(root)
    ensures e.rel != [] && forall n | n in e.rel :: ValidName(n)
  {
    UnderRels([], root);
    assert e.rel[0..] == e.rel;
    UnderAllRels([], root.entries);
  }

  lemma SamePathSameRel(root: Node, other: Node, a: Entry, b: Entry)
    requires root.Dir? && WellFormed(root) && a in Listing(root)
    requires other.Dir? && WellFormed(other) && b in Listing(other)
    requires Posix(a.rel) == Posix(b.rel)
    ensures a.rel == b.rel
  {
    RelsAreNames(root, a);
    RelsAreNames(other, b);
    PosixInjective(a.rel, b.rel);
  }

  lemma SamePathSameEntry(root: Node, a: Entry, b: Entry)
    requires root.Dir? && WellFormed(root) && a in Listing(root) && b in Listing(root)
    requires Posix(a.rel) == Posix(b.rel)
    ensures a == b
  {
    SamePathSameRel(root, root, a, b);
    UnderRels([], root);
  }

  // ---- loading a manifest ------------------------------------------------

  /** `split("/")` */
  function Parts(s: string): (parts: seq<string>)
    ensures parts != []
  {
    if s == "" then [""]
    else
      var rest := Parts(s[1..]);
      if s[0] == '/' then [""] + rest else [[s[0]] + rest[0]] + rest[1..]
  }

  predicate SafePath(path: string) {
    && path != "" && path[0] != '/' && path[0] != '\\'
    && (forall part | part in Parts(Normalized(path)) :: part !in {"", ".", ".."})
    && ':' !in Parts(Normalized(path))[0]
  }

  predicate Loads(m: Manifest) {
    && (forall i | 0 <= i < |m.items| :: SafePath(m.items[i].path) && |m.items[i].sha256| == 64)
    && DistinctKeys(m.items)
    && m.fileCount == |m.items| && m.totalBytes == TotalBytes(m.items)
  }

  /** The checks of `load_tree_manifest` behind the JSON layer. */
  method LoadTreeManifest(m: Manifest) returns (ok: bool)
    ensures ok <==> Loads(m)
  {
    hide Normalized, Parts, DistinctKeys, TotalBytes, SafePath;
    var seen: set<string> := {};
    var total := 0;
    NothingRead();
    var i := 0;
    while i < |m.items|
      invariant 0 <= i <= |m.items| && seen == KeysOf(m.items[..i])
      invariant forall item | item in m.items[..i] :: SafePath(item.path) && |item.sha256| == 64
      invariant DistinctKeys(m.items[..i]) && total == TotalBytes(m.items[..i])
    {
      var item := m.items[i];
      assert item in m.items;
      if !SafePath(item.path) { return false; }
      var key := Normalized(item.path);
      assert m.items[..i + 1] == m.items[..i] + [item];
      ReadItem(m.items[..i], item);
      if key in seen {
        PrefixDistinct(m.items, i + 1);
        return false;
      }
      if |item.sha256| != 64 { return false; }
      seen, total := seen + {key}, total + item.size;
      i := i + 1;
    }
    assert m.items[..i] == m.items;
    ok := m.fileCount == |m.items| && m.totalBytes == total;
  }

  function KeysOf(items: seq<Item>): set<string> {
    set item | item in items :: Normalized(item.path)
  }

  lemma NothingRead()
    ensures KeysOf([]) == {} && DistinctKeys([]) && TotalBytes([]) == 0
  {
  }

  lemma ReadItem(items: seq<Item>, item: Item)
    ensures KeysOf(items + [item]) == KeysOf(items) + {Normalized(item.path)}
    ensures TotalBytes(items + [item]) == TotalBytes(items) + item.size
    ensures DistinctKeys(items) ==> (DistinctKeys(items + [item]) <==> Normalized(item.path) !in KeysOf(items))
  {
    hide Normalized;
    var more := items + [item];
    assert more[..|items|] == items;
    if Normalized(item.path) in KeysOf(items) {
      var other :| other in items && Normalized(other.path) == Normalized(item.path);
      var i :| 0 <= i < |items| && items[i] == other;
      assert more[i] == other && more[|items|] == item;
    }
    forall i | 0 <= i < |items|
      ensures items[i] in items && more[i] == items[i]
    {
    }
  }

  lemma PrefixDistinct(items: seq<Item>, i: nat)
    requires i <= |items|
    ensures DistinctKeys(items) ==> DistinctKeys(items[..i])
  {
    hide Normalized;
  }

  /** What `verify_tree` reports about a loaded manifest is the manifest's own summary. */
  lemma LoadedSummary(m: Manifest)
    requires Loads(m)
    ensures Verified(|Expected(m.items)|, SizeOf(Expected(m.items), KeyOrder(m.items)))
         == Verified(m.fileCount, m.totalBytes)
  {
    ExpectedSummary(m.items);
  }

  lemma {:induction false} PartsOfName(name: string, rest: string)
    requires '/' !in name
    ensures Parts(name) == [name]
    ensures Parts(name + "/" + rest) == [name] + Parts(rest)
  {
    if name == "" {
      assert (name + "/" + rest)[1..] == rest;
    } else {
      PartsOfName(name[1..], rest);
      assert (name + "/" + rest)[1..] == name[1..] + "/" + rest;
      assert name == [name[0]] + name[1..];
    }
  }

  /** Splitting a path undoes printing it. */
  lemma {:induction false} PartsOfPosix(p: Path)
    requires p != [] && forall n | n in p :: ValidName(n)
    ensures Parts(Posix(p)) == p
  {
    assert p[0] in p;
    if |p| == 1 {
      PartsOfName(p[0], "");
    } else {
      PartsOfPosix(p[1..]);
      PartsOfName(p[0], Posix(p[1..]));
    }
  }

  predicate LoadableName(rel: Path) {
    rel != [] && ':' !in rel[0] && forall n | n in rel :: n != "." && n != ".."
  }

  lemma SafePosix(p: Path)
    requires p != [] && (forall n | n in p :: ValidName(n)) && '\\' !in Posix(p)
    ensures SafePath(Posix(p)) <==> LoadableName(p)
  {
    assert Normalized(Posix(p)) == Posix(p);
    PartsOfPosix(p);
    assert p[0] in p;
    assert Posix(p)[0] == p[0][0];
  }

  /** The manifest of a tree that verifies against it can also be loaded again, exactly when no top-level
      name has a colon and no name is a dot or two. */
  lemma BuiltManifestLoads(root: Node, walked: seq<Entry>, hash: Hash)
    requires root.Dir? && WellFormed(root) && multiset(walked) == multiset(Listing(root))
    requires !HasIrregular(Listing(root)) && NoBackslash(root) && forall c :: |hash(c)| == 64
    ensures var items := ItemsOf(walked, hash);
            Loads(Manifest(|items|, TotalBytes(items), items)) <==> forall e | e in Listing(root) :: LoadableName(e.rel)
  {
    var items := ItemsOf(walked, hash);
    SameMembers(walked, Listing(root));
    WalkedPathsDistinct(root, walked);
    forall i | 0 <= i < |items|
      ensures Normalized(items[i].path) == items[i].path == Posix(walked[i].rel)
      ensures SafePath(items[i].path) <==> LoadableName(walked[i].rel)
    {
      assert walked[i] in walked;
      RelsAreNames(root, walked[i]);
      SafePosix(walked[i].rel);
    }
    hide Normalized, SafePath, Posix;
    assert DistinctKeys(items);
    if Loads(Manifest(|items|, TotalBytes(items), items)) {
      forall e | e in Listing(root)
        ensures LoadableName(e.rel)
      {
        assert e in walked;
        var i :| 0 <= i < |walked| && walked[i] == e;
        assert SafePath(items[i].path);
      }
    }
    if forall e | e in Listing(root) :: LoadableName(e.rel) {
      forall i | 0 <= i < |items|
        ensures SafePath(items[i].path) && |items[i].sha256| == 64
      {
        assert walked[i] in walked;
      }
    }
  }
}
