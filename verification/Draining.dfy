/** SMB listing, the default `list_blobs` over either lister, and what draining returns. */
module Draining {
  import opened Wrappers
  import opened FilterMaps
  import opened KeyOrder
  import opened Keys
  import opened TempNames
  import opened Trees
  import opened Paging
  import opened Listing

  // ---- SMB collect_keys ----

  /** The key an entry is listed under, unless it is a temporary file. */
  function SmbKeyOf(root: Option<string>): string -> Option<string> {
    (file: string) => if IsSmbTempKey(file) then None else Some(ListedKey(root, file))
  }

  function SmbKeysOf(root: Option<string>, files: seq<string>): seq<string> {
    FilterMap(SmbKeyOf(root), files)
  }

  ghost function Found(root: Option<string>, files: seq<string>): multiset<string> {
    multiset(SmbKeysOf(root, files))
  }

  lemma FoundConcat(root: Option<string>, a: seq<string>, b: seq<string>)
    ensures Found(root, a + b) == Found(root, a) + Found(root, b)
  {
    FilterMapConcat(SmbKeyOf(root), a, b);
  }

  /** What is still to be found: the rest of the open directory, and the stacked directories. */
  ghost function Pending(root: Option<string>, dir: string, es: seq<Entry>, paths: seq<string>, nodes: seq<Tree>): multiset<string>
    requires |paths| == |nodes|
  {
    Found(root, FilesOf(dir, es)) + Found(root, StackFiles(paths, nodes))
  }

  lemma PendingDirectory(root: Option<string>, dir: string, es: seq<Entry>, paths: seq<string>, nodes: seq<Tree>)
    requires |paths| == |nodes| && es != [] && es[0].node.Dir?
    ensures var child := InParent(dir, es[0].name);
            Pending(root, dir, es, paths, nodes) == Pending(root, dir, es[1..], paths + [child], nodes + [es[0].node])
  {
    var child, node := InParent(dir, es[0].name), es[0].node;
    var here, rest, below := AllFiles(child, node), FilesOf(dir, es[1..]), StackFiles(paths, nodes);
    PushedFiles(paths, nodes, child, node);
    FoundConcat(root, here, rest);
    FoundConcat(root, here, below);
    SwapFirst(Found(root, here), Found(root, rest), Found(root, below));
  }

  lemma PushedFiles(paths: seq<string>, nodes: seq<Tree>, path: string, node: Tree)
    requires |paths| == |nodes|
    ensures StackFiles(paths + [path], nodes + [node]) == AllFiles(path, node) + StackFiles(paths, nodes)
  {
    assert (paths + [path])[..|paths|] == paths && (nodes + [node])[..|nodes|] == nodes;
  }

  lemma SwapFirst(a: multiset<string>, b: multiset<string>, c: multiset<string>)
    ensures (a + b) + c == b + (a + c)
  {
  }

  lemma PendingFile(root: Option<string>, dir: string, es: seq<Entry>, paths: seq<string>, nodes: seq<Tree>)
    requires |paths| == |nodes| && es != [] && es[0].node.File?
    ensures Pending(root, dir, es, paths, nodes) ==
            Pending(root, dir, es[1..], paths, nodes) + OneKey(SmbKeyOf(root)(InParent(dir, es[0].name)))
  {
    var child := InParent(dir, es[0].name);
    assert FilesOf(dir, es) == [child] + FilesOf(dir, es[1..]);
    FoundConcat(root, [child], FilesOf(dir, es[1..]));
    FoundOne(root, child);
    MoveLast(Found(root, [child]), Found(root, FilesOf(dir, es[1..])), Found(root, StackFiles(paths, nodes)));
  }

  lemma MoveLast(a: multiset<string>, b: multiset<string>, c: multiset<string>)
    ensures (a + b) + c == (b + c) + a
  {
  }

  /** Adding the key of one file to the keys accounts for that file. */
  lemma AddKey(keys: seq<string>, key: Option<string>, pending: multiset<string>)
    ensures multiset(keys) + (pending + OneKey(key)) ==
            multiset(if key.Some? then keys + [key.value] else keys) + pending
  {
    if key.Some? {
      assert multiset(keys + [key.value]) == multiset(keys) + multiset{key.value};
    }
  }

  ghost function OneKey(key: Option<string>): multiset<string> {
    if key.None? then multiset{} else multiset{key.value}
  }

  lemma FoundOne(root: Option<string>, file: string)
    ensures Found(root, [file]) == OneKey(SmbKeyOf(root)(file))
  {
    var f := SmbKeyOf(root);
    assert [file][1..] == [];
    assert FilterMap(f, [file]) == if f(file).None? then [] else [f(file).value];
  }

  lemma PendingOpen(root: Option<string>, paths: seq<string>, nodes: seq<Tree>)
    requires |paths| == |nodes| > 0 && nodes[|paths| - 1].Dir?
    ensures var last := |paths| - 1;
            Found(root, StackFiles(paths, nodes)) ==
            Pending(root, paths[last], nodes[last].entries, paths[..last], nodes[..last])
  {
    var last := |paths| - 1;
    FoundConcat(root, AllFiles(paths[last], nodes[last]), StackFiles(paths[..last], nodes[..last]));
  }

  /** The keys the share holds under the root prefix, in byte order. */
  function SmbKeys(share: Tree, root: Option<string>): seq<string> {
    Sort(SmbKeysOf(root, SmbFiles(share, root)))
  }

  /** `collect_keys`: directories go on a stack, other entries are kept unless temporary, and the result is sorted. */
  method CollectKeys(share: Tree, root: Option<string>) returns (keys: seq<string>)
    requires WellFormed(share) && (root.Some? ==> ValidKey(root.value))
    ensures keys == SmbKeys(share, root)
  {
    var start := if root.None? then "" else root.value;
    var found := Find(share, Comps(start));
    if !(found.Node? && found.tree.Dir?) {
      return [];
    }
    keys := WalkShare(root, start, found.tree);
    SmbKeysDistinct(share, root);
    SortUnique(keys, SmbKeysOf(root, SmbFiles(share, root)));
    keys := Sort(keys);
  }

  /** The outer loop of `collect_keys`, from a start directory that exists. */
  method WalkShare(root: Option<string>, start: string, top: Tree) returns (keys: seq<string>)
    requires top.Dir?
    ensures multiset(keys) == Found(root, AllFiles(start, top))
  {
    keys := [];
    var stack, nodes := [start], [top];
    ghost var all := Found(root, AllFiles(start, top));
    StartFiles(start, top);
    while stack != []
      invariant AllDirs(nodes) && Balanced(root, keys, stack, nodes, all)
      decreases StackSize(nodes)
    {
      keys, stack, nodes := ListNext(root, keys, stack, nodes, all);
    }
    StackEmpty(root, keys, stack, nodes, all);
  }

  /** The keys found and the keys still to be found are all the keys. */
  ghost predicate Balanced(root: Option<string>, keys: seq<string>, paths: seq<string>, nodes: seq<Tree>, all: multiset<string>) {
    |paths| == |nodes| && multiset(keys) + Found(root, StackFiles(paths, nodes)) == all
  }

  lemma StackEmpty(root: Option<string>, keys: seq<string>, paths: seq<string>, nodes: seq<Tree>, all: multiset<string>)
    requires Balanced(root, keys, paths, nodes, all) && paths == []
    ensures multiset(keys) == all
  {
  }

  /** Pop one directory and list it. */
  method ListNext(root: Option<string>, keys0: seq<string>, stack0: seq<string>, nodes0: seq<Tree>, ghost all: multiset<string>)
    returns (keys: seq<string>, stack: seq<string>, nodes: seq<Tree>)
    requires Balanced(root, keys0, stack0, nodes0, all) && AllDirs(nodes0) && stack0 != []
    ensures Balanced(root, keys, stack, nodes, all) && AllDirs(nodes)
    ensures StackSize(nodes) < StackSize(nodes0)
  {
    var last := |stack0| - 1;
    PendingOpen(root, stack0, nodes0);
    StackSizePop(nodes0);
    keys, stack, nodes :=
      ListDirectory(root, stack0[last], nodes0[last].entries, keys0, stack0[..last], nodes0[..last]);
  }

  ghost predicate AllDirs(nodes: seq<Tree>) {
    forall i | 0 <= i < |nodes| :: nodes[i].Dir?
  }

  lemma PushedSize(nodes: seq<Tree>, node: Tree)
    ensures StackSize(nodes + [node]) == StackSize(nodes) + Size(node)
    ensures AllDirs(nodes) && node.Dir? ==> AllDirs(nodes + [node])
  {
    assert (nodes + [node])[..|nodes|] == nodes;
  }

  lemma SizeStep(es: seq<Entry>)
    requires es != []
    ensures SizeOf(es) == Size(es[0].node) + SizeOf(es[1..])
  {
  }

  /** The inner loop of `collect_keys`: one directory's entries. */
  method ListDirectory(root: Option<string>, dir: string, entries: seq<Entry>,
                       keys0: seq<string>, stack0: seq<string>, nodes0: seq<Tree>)
    returns (keys: seq<string>, stack: seq<string>, nodes: seq<Tree>)
    requires |stack0| == |nodes0| && AllDirs(nodes0)
    ensures |stack| == |nodes| && AllDirs(nodes)
    ensures multiset(keys) + Found(root, StackFiles(stack, nodes)) ==
            multiset(keys0) + Pending(root, dir, entries, stack0, nodes0)
    ensures StackSize(nodes) <= StackSize(nodes0) + SizeOf(entries)
  {
    keys, stack, nodes := keys0, stack0, nodes0;
    var i := 0;
    assert entries[0..] == entries;
    while i < |entries|
      invariant 0 <= i <= |entries|
      invariant |stack| == |nodes| && AllDirs(nodes)
      invariant multiset(keys) + Pending(root, dir, entries[i..], stack, nodes) ==
                multiset(keys0) + Pending(root, dir, entries, stack0, nodes0)
      invariant StackSize(nodes) + SizeOf(entries[i..]) <= StackSize(nodes0) + SizeOf(entries)
    {
      assert entries[i..][0] == entries[i] && entries[i..][1..] == entries[i + 1..];
      SizeStep(entries[i..]);
      var child := InParent(dir, entries[i].name);
      if entries[i].node.Dir? {
        PendingDirectory(root, dir, entries[i..], stack, nodes);
        PushedSize(nodes, entries[i].node);
        stack, nodes := stack + [child], nodes + [entries[i].node];
      } else {
        var key := SmbKeyOf(root)(child);
        PendingFile(root, dir, entries[i..], stack, nodes);
        AddKey(keys, key, Pending(root, dir, entries[i + 1..], stack, nodes));
        if key.Some? {
          keys := keys + [key.value];
        }
      }
      i := i + 1;
    }
    assert entries[i..] == [];
  }

  lemma {:induction false} CountDistinct(keys: seq<string>, k: string)
    requires Distinct(keys)
    ensures multiset(keys)[k] <= 1
  {
    if keys != [] {
      CountDistinct(keys[1..], k);
      assert keys == [keys[0]] + keys[1..];
      if k == keys[0] {
        assert k !in keys[1..];
      }
    }
  }

  lemma CountTwice(keys: seq<string>, i: nat, j: nat)
    requires i < j < |keys| && keys[i] == keys[j]
    ensures multiset(keys)[keys[i]] >= 2
  {
    assert keys == keys[..j] + keys[j..];
    assert keys[..j][i] in keys[..j] && keys[j..][0] in keys[j..];
    assert multiset(keys) == multiset(keys[..j]) + multiset(keys[j..]);
  }

  lemma SortMembers(keys: seq<string>)
    ensures forall k :: k in Sort(keys) <==> k in keys
    ensures forall k :: k in keys <==> k in multiset(keys)
  {
    SortFacts(keys);
    forall k
      ensures k in Sort(keys) <==> k in keys
    {
      assert k in Sort(keys) <==> k in multiset(Sort(keys));
      assert k in keys <==> k in multiset(keys);
    }
  }

  lemma SortUnique(a: seq<string>, b: seq<string>)
    requires multiset(a) == multiset(b) && Distinct(b)
    ensures Sort(a) == Sort(b) && Ascending(Sort(b))
  {
    forall i, j | 0 <= i < j < |a|
      ensures a[i] != a[j]
    {
      if a[i] == a[j] {
        CountTwice(a, i, j);
        CountDistinct(b, a[i]);
      }
    }
    SortFacts(a);
    SortFacts(b);
    SortMembers(a);
    SortMembers(b);
    assert forall k :: k in multiset(a) <==> k in multiset(b);
    AscendingUnique(Sort(a), Sort(b));
  }

  /** Two files below the root prefix are listed under different keys. */
  lemma ListedKeyInjective(root: Option<string>, a: string, b: string)
    requires root.Some? ==> root.value + "/" <= a && root.value + "/" <= b
    requires ListedKey(root, a) == ListedKey(root, b)
    ensures a == b
  {
    if root.Some? {
      var p := root.value;
      assert a[|p|..][0] == '/' && b[|p|..][0] == '/';
      assert a == p + "/" + a[|p|..][1..];
      assert b == p + "/" + b[|p|..][1..];
    }
  }

  lemma SmbKeysOfDistinct(root: Option<string>, files: seq<string>)
    requires PathAscending(files)
    requires root.Some? ==> forall f | f in files :: root.value + "/" <= f
    ensures Distinct(SmbKeysOf(root, files))
  {
    var key := SmbKeyOf(root);
    forall i, j | 0 <= i < j < |files|
      ensures key(files[i]).None? || key(files[i]) != key(files[j])
    {
      assert files[i] in files && files[j] in files;
      PathLessAsymmetric(files[i], files[j]);
      if key(files[i]).Some? && key(files[i]) == key(files[j]) {
        ListedKeyInjective(root, files[i], files[j]);
      }
    }
    FilterMapDistinct(key, files);
  }

  lemma SmbKeysDistinct(share: Tree, root: Option<string>)
    requires WellFormed(share) && (root.Some? ==> ValidKey(root.value))
    ensures Distinct(SmbKeysOf(root, SmbFiles(share, root)))
    ensures PathAscending(SmbFiles(share, root))
    ensures root.Some? ==> forall f | f in SmbFiles(share, root) :: root.value + "/" <= f
  {
    var start := if root.None? then "" else root.value;
    var found := Find(share, Comps(start));
    if found.Node? && found.tree.Dir? {
      FoundIsWellFormed(share, Comps(start));
      EntriesInPathOrder(start, found.tree.entries);
      if root.Some? {
        forall f | f in SmbFiles(share, root)
          ensures root.value + "/" <= f
        {
          var name := EntryOver(start, found.tree.entries, f);
        }
      }
      SmbKeysOfDistinct(root, SmbFiles(share, root));
    }
  }

  function Prefixed(keys: seq<string>, prefix: string): seq<string> {
    if keys == [] then []
    else if prefix <= keys[0] then [keys[0]] + Prefixed(keys[1..], prefix)
    else Prefixed(keys[1..], prefix)
  }

  lemma {:induction false} PrefixedFacts(keys: seq<string>, prefix: string)
    ensures forall k :: k in Prefixed(keys, prefix) <==> k in keys && prefix <= k
    ensures Ascending(keys) ==> Ascending(Prefixed(keys, prefix))
  {
    if keys != [] {
      PrefixedFacts(keys[1..], prefix);
      if Ascending(keys) && prefix <= keys[0] {
        assert keys == [keys[0]] + keys[1..];
        AscendingParts([keys[0]], keys[1..]);
        forall k | k in Prefixed(keys[1..], prefix)
          ensures KeyLess(keys[0], k)
        {
          assert k in keys[1..];
          var i :| 0 <= i < |keys[1..]| && keys[1..][i] == k;
          assert keys[i + 1] == k;
        }
        AscendingJoin([keys[0]], Prefixed(keys[1..], prefix));
      }
    }
  }

  /** SMB tests the prefix on the key text, not on path components. */
  function SmbMatching(share: Tree, root: Option<string>, prefix: string): Result<seq<string>> {
    if !ValidPrefix(prefix) then Err(InvalidStorageKey) else Ok(Prefixed(SmbKeys(share, root), prefix))
  }

  method SmbListPage(share: Tree, root: Option<string>, prefix: string, continuation: Option<string>, limit: nat)
    returns (r: Result<BlobListPage>)
    requires WellFormed(share) && (root.Some? ==> ValidKey(root.value))
    ensures SmbMatching(share, root, prefix).Err? ==> r == Err(SmbMatching(share, root, prefix).error)
    ensures SmbMatching(share, root, prefix).Ok? && limit == 0 ==> r == Err(PreconditionFailed)
    ensures SmbMatching(share, root, prefix).Ok? && limit >= 1 ==>
              r == Ok(PageOf(SmbMatching(share, root, prefix).value, continuation, limit))
  {
    if !ValidPrefix(prefix) {
      return Err(InvalidStorageKey);
    }
    if limit == 0 {
      return Err(PreconditionFailed);
    }
    var collected := CollectKeys(share, root);
    var keys := After(Prefixed(collected, prefix), continuation);
    if |keys| > limit {
      return Ok(BlobListPage(keys[..limit], Some(keys[limit - 1])));
    }
    return Ok(BlobListPage(keys, None));
  }

  // ---- The default list_blobs ----

  datatype Lister = Local(root: Tree) | Smb(share: Tree, prefix: Option<string>) {
    predicate Valid() {
      match this
      case Local(root) => WellFormed(root)
      case Smb(share, prefix) => WellFormed(share) && (prefix.Some? ==> ValidKey(prefix.value))
    }

    /** The keys to be listed, in the order pages are cut from. */
    function Matching(prefix: string): Result<seq<string>> {
      match this
      case Local(root) => LocalMatching(root, prefix)
      case Smb(share, root) => SmbMatching(share, root, prefix)
    }

    method ListBlobsPage(prefix: string, continuation: Option<string>, limit: nat) returns (r: Result<BlobListPage>)
      requires Valid()
      ensures limit == 0 ==> r.Err?
      ensures limit >= 1 && Matching(prefix).Err? ==> r == Err(Matching(prefix).error)
      ensures limit >= 1 && Matching(prefix).Ok? ==> r == Ok(PageOf(Matching(prefix).value, continuation, limit))
    {
      match this {
        case Local(root) => r := LocalListPage(root, prefix, continuation, limit);
        case Smb(share, root) => r := SmbListPage(share, root, prefix, continuation, limit);
      }
    }

    /** `list_blobs`; the trait asks for pages of 1000. */
    method ListBlobs(prefix: string, pageSize: nat) returns (r: Result<seq<string>>)
      requires Valid() && pageSize >= 1
      ensures Matching(prefix).Err? ==> r == Err(Matching(prefix).error)
      ensures Matching(prefix).Ok? ==> r == Ok(Drain(Matching(prefix).value, None, pageSize))
    {
      var keys: seq<string> := [];
      var continuation: Option<string> := None;
      ghost var all := if Matching(prefix).Ok? then Matching(prefix).value else [];
      while true
        invariant Matching(prefix).Ok? ==> keys + Drain(all, continuation, pageSize) == Drain(all, None, pageSize)
        decreases |After(all, continuation)|
      {
        var page := ListBlobsPage(prefix, continuation, pageSize);
        match page {
          case Err(e) =>
            return Err(e);
          case Ok(p) =>
            if p.next.None? {
              return Ok(keys + p.keys);
            }
            PageProgress(all, continuation, pageSize);
            Regroup(keys, p.keys, Drain(all, p.next, pageSize));
            keys := keys + p.keys;
            continuation := p.next;
        }
      }
    }
  }

  // ---- What a drain returns ----

  /**
    Local: for every page size, the drain returns every listed key exactly once in byte order if and
    only if no two listed keys clash.
   */
  lemma LocalDrainExact(root: Tree, prefix: string, limit: nat)
    requires WellFormed(root) && limit >= 1 && LocalMatching(root, prefix).Ok?
    ensures var keys := LocalMatching(root, prefix).value;
            && (ExactlyOnceAscending(Drain(keys, None, limit), keys) <==> NoClash(keys))
            && (NoClash(keys) ==> Drain(keys, None, limit) == keys)
  {
    LocalMatchingInPathOrder(root, prefix);
    AscendingIffNoClash(LocalMatching(root, prefix).value);
    DrainExactIff(LocalMatching(root, prefix).value, limit);
  }

  /**
    SMB: the keys are in byte order, so every page size drains to exactly the sorted matching keys. They are the keys
    of all files whose names do not have the shape of a temporary one.
   */
  lemma SmbDrainExact(share: Tree, root: Option<string>, prefix: string, limit: nat)
    requires WellFormed(share) && (root.Some? ==> ValidKey(root.value)) && limit >= 1
    requires SmbMatching(share, root, prefix).Ok?
    ensures var keys := SmbMatching(share, root, prefix).value;
            && Ascending(keys) && Drain(keys, None, limit) == keys
            && forall k :: k in keys <==>
                 prefix <= k && exists f | f in SmbFiles(share, root) :: !TempShape(FileName(f)) && k == ListedKey(root, f)
  {
    var files := SmbFiles(share, root);
    var found := SmbKeysOf(root, files);
    SmbKeysDistinct(share, root);
    SmbKeysMembers(root, files);
    SortUnique(found, found);
    PrefixedFacts(Sort(found), prefix);
    DrainExactIff(Prefixed(Sort(found), prefix), limit);
    SortMembers(found);
  }

  lemma SmbKeysMembers(root: Option<string>, files: seq<string>)
    ensures forall k :: k in SmbKeysOf(root, files) <==> exists f | f in files :: !TempShape(FileName(f)) && k == ListedKey(root, f)
  {
    FilterMapMembers(SmbKeyOf(root), files);
    forall k
      ensures k in SmbKeysOf(root, files) <==> exists f | f in files :: !TempShape(FileName(f)) && k == ListedKey(root, f)
    {
      if k in SmbKeysOf(root, files) {
        var f :| f in files && SmbKeyOf(root)(f) == Some(k);
        SmbTempKeyIff(f);
      }
      if f :| f in files && !TempShape(FileName(f)) && k == ListedKey(root, f) {
        SmbTempKeyIff(f);
        assert SmbKeyOf(root)(f) == Some(k);
      }
    }
  }
}
