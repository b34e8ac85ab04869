/** The local and SMB listers on a fixed tree, and the default `list_blobs` that drains either one. */
module Listing {
  import opened Wrappers
  import opened Sequences
  import opened FilterMaps
  import opened KeyOrder
  import opened Keys
  import opened TempNames
  import opened Trees
  import opened Paging

  // ---- The keys each lister may report, in the order it meets them ----

  /** Local: files under the internal directory and files with the temporary suffix are not listed. */
  predicate LocallyListed(key: string) {
    !Under(INTERNAL_STORAGE_DIR, key) && !IsUploading(key)
  }

  function LocalKeys(files: seq<string>): seq<string> {
    if files == [] then []
    else if LocallyListed(files[0]) then [files[0]] + LocalKeys(files[1..])
    else LocalKeys(files[1..])
  }

  /** The prefix is a path: the walk starts there, and a missing start lists nothing. */
  function LocalMatching(root: Tree, prefix: string): Result<seq<string>> {
    if !ValidPrefix(prefix) then Err(InvalidStorageKey)
    else if Under(INTERNAL_STORAGE_DIR, prefix) then Ok([])
    else match Find(root, Comps(prefix))
      case Missing => Ok([])
      case NotADirectory => Err(Io)
      case Node(t) => Ok(LocalKeys(AllFiles(prefix, t)))
  }

  /** The empty prefix lists from the root. */
  lemma WholeRoot(root: Tree)
    ensures LocalMatching(root, "") == Ok(LocalKeys(AllFiles("", root)))
  {
  }

  lemma {:induction false} LocalKeysMembers(files: seq<string>)
    ensures forall k :: k in LocalKeys(files) <==> k in files && LocallyListed(k)
  {
    if files != [] {
      LocalKeysMembers(files[1..]);
    }
  }

  lemma {:induction false} LocalKeysConcat(a: seq<string>, b: seq<string>)
    ensures LocalKeys(a + b) == LocalKeys(a) + LocalKeys(b)
  {
    if a == [] {
      assert a + b == b;
    } else {
      LocalKeysConcat(a[1..], b);
      ConcatHead(a, b);
      ConcatAssociative([a[0]], LocalKeys(a[1..]), LocalKeys(b));
    }
  }

  lemma {:induction false} LocalKeysInPathOrder(files: seq<string>)
    requires PathAscending(files)
    ensures PathAscending(LocalKeys(files))
  {
    if files != [] {
      var rest := files[1..];
      LocalKeysInPathOrder(rest);
      LocalKeysMembers(rest);
      forall a, b | a in [files[0]] && b in LocalKeys(rest)
        ensures PathLess(a, b)
      {
        var i :| 0 <= i < |rest| && rest[i] == b;
        assert files[i + 1] == b;
      }
      PathAscendingConcat([files[0]], LocalKeys(rest));
    }
  }

  /** A local listing is in path order. */
  lemma LocalMatchingInPathOrder(root: Tree, prefix: string)
    requires WellFormed(root) && LocalMatching(root, prefix).Ok?
    ensures PathAscending(LocalMatching(root, prefix).value)
  {
    if !Under(INTERNAL_STORAGE_DIR, prefix) && Find(root, Comps(prefix)).Node? {
      FoundIsWellFormed(root, Comps(prefix));
      WalkInPathOrder(prefix, Find(root, Comps(prefix)).tree);
      LocalKeysInPathOrder(AllFiles(prefix, Find(root, Comps(prefix)).tree));
    }
  }

  lemma {:induction false} LocalKeysNone(files: seq<string>)
    requires forall k | k in files :: !LocallyListed(k)
    ensures LocalKeys(files) == []
  {
    if files != [] {
      assert files[0] in files;
      LocalKeysNone(files[1..]);
    }
  }

  /** What a walk with these files still to meet adds to a page. */
  ghost function Selected(files: seq<string>, token: Option<string>): seq<string> {
    After(LocalKeys(files), token)
  }

  lemma SelectedConcat(a: seq<string>, b: seq<string>, token: Option<string>)
    ensures Selected(a + b, token) == Selected(a, token) + Selected(b, token)
  {
    LocalKeysConcat(a, b);
    AfterConcat(LocalKeys(a), LocalKeys(b), token);
  }

  /** What is left to select when this stack is popped from its end. */
  ghost function Left(paths: seq<string>, nodes: seq<Tree>, token: Option<string>): seq<string>
    requires |paths| == |nodes|
  {
    Selected(StackFiles(paths, nodes), token)
  }

  lemma PopInternal(paths: seq<string>, nodes: seq<Tree>, token: Option<string>)
    requires |paths| == |nodes| > 0 && Under(INTERNAL_STORAGE_DIR, paths[|paths| - 1])
    ensures Left(paths, nodes, token) == Left(paths[..|paths| - 1], nodes[..|paths| - 1], token)
  {
    var last := |paths| - 1;
    var files := AllFiles(paths[last], nodes[last]);
    forall k | k in files
      ensures !LocallyListed(k)
    {
      FilesUnder(paths[last], nodes[last], k);
      UnderTransitive(INTERNAL_STORAGE_DIR, paths[last], k);
    }
    LocalKeysNone(files);
    SelectedConcat(files, StackFiles(paths[..last], nodes[..last]), token);
  }

  lemma PopFile(paths: seq<string>, nodes: seq<Tree>, token: Option<string>)
    requires |paths| == |nodes| > 0 && nodes[|paths| - 1].File?
    ensures var last := |paths| - 1;
            Left(paths, nodes, token) ==
            (if LocallyListed(paths[last]) && IsAfter(token, paths[last]) then [paths[last]] else [])
            + Left(paths[..last], nodes[..last], token)
  {
    var last := |paths| - 1;
    SelectedConcat([paths[last]], StackFiles(paths[..last], nodes[..last]), token);
    assert LocalKeys([paths[last]]) == if LocallyListed(paths[last]) then [paths[last]] else [];
  }

  /** Popping a file accounts for exactly the key it adds to the page. */
  lemma PopFileToPage(paths: seq<string>, nodes: seq<Tree>, token: Option<string>, page: seq<string>)
    requires |paths| == |nodes| > 0 && nodes[|paths| - 1].File?
    ensures var last := |paths| - 1;
            page + Left(paths, nodes, token) ==
            (if LocallyListed(paths[last]) && IsAfter(token, paths[last]) then page + [paths[last]] else page)
            + Left(paths[..last], nodes[..last], token)
  {
    var last := |paths| - 1;
    PopFile(paths, nodes, token);
    Regroup(page, [paths[last]], Left(paths[..last], nodes[..last], token));
  }

  lemma Regroup(a: seq<string>, b: seq<string>, c: seq<string>)
    ensures (a + b) + c == a + (b + c) && [] + c == c
  {
  }

  /** `collect_blob_page`: a tree search with an explicit stack of paths, cut at `limit` keys. */
  method CollectBlobPage(root: Tree, prefix: string, continuation: Option<string>, limit: nat)
    returns (r: Result<seq<string>>)
    requires WellFormed(root) && limit >= 1
    ensures LocalMatching(root, prefix).Err? ==> r == Err(LocalMatching(root, prefix).error)
    ensures LocalMatching(root, prefix).Ok? ==>
              r == Ok(Truncate(After(LocalMatching(root, prefix).value, continuation), limit))
  {
    if !ValidPrefix(prefix) {
      return Err(InvalidStorageKey);
    }
    if Under(INTERNAL_STORAGE_DIR, prefix) {
      return Ok([]);
    }
    match Find(root, Comps(prefix)) {
      case Missing => return Ok([]);
      case NotADirectory => return Err(Io);
      case Node(start) =>
        FoundIsWellFormed(root, Comps(prefix));
        var page := WalkPage(root, prefix, start, continuation, limit);
        return Ok(page);
    }
  }

  /** The loop of `collect_blob_page` from a start path that exists. */
  method WalkPage(root: Tree, prefix: string, ghost start: Tree, continuation: Option<string>, limit: nat)
    returns (page: seq<string>)
    requires WellFormed(start) && Find(root, Comps(prefix)) == Node(start)
    ensures page == Truncate(Selected(AllFiles(prefix, start), continuation), limit)
  {
    page := [];
    var stack := [prefix];
    ghost var nodes := [start];
    ghost var all := Selected(AllFiles(prefix, start), continuation);
    StartLeft(prefix, start, continuation);
    while stack != []
      invariant StackOk(root, stack, nodes)
      invariant page + Left(stack, nodes, continuation) == all
      invariant |page| <= limit
      decreases StackSize(nodes)
    {
      if |page| == limit {
        break;
      }
      var last := |stack| - 1;
      var path := stack[last];
      StackOkPop(root, stack, nodes);
      if Under(INTERNAL_STORAGE_DIR, path) {
        PopInternal(stack, nodes, continuation);
        stack, nodes := stack[..last], nodes[..last];
        continue;
      }
      PathIsFound(root, stack, nodes);
      match Find(root, Comps(path)).tree {
        case File =>
          PopFileToPage(stack, nodes, continuation, page);
          stack, nodes := stack[..last], nodes[..last];
          if !IsUploading(path) && IsAfter(continuation, path) {
            page := page + [path];
          }
        case Dir(entries) =>
          OpenDirectory(root, stack, nodes, continuation);
          stack := stack[..last] + ReversedChildren(path, entries);
          nodes := nodes[..last] + ReversedNodes(entries);
      }
    }
    PageDone(page, Left(stack, nodes, continuation), all, limit);
  }

  lemma StartLeft(prefix: string, start: Tree, token: Option<string>)
    ensures Left([prefix], [start], token) == Selected(AllFiles(prefix, start), token)
  {
    StartFiles(prefix, start);
  }

  lemma OpenDirectory(root: Tree, paths: seq<string>, nodes: seq<Tree>, token: Option<string>)
    requires StackOk(root, paths, nodes) && |paths| > 0 && nodes[|nodes| - 1].Dir?
    ensures var last := |paths| - 1;
            var es := nodes[last].entries;
            var ps, ns := paths[..last] + ReversedChildren(paths[last], es), nodes[..last] + ReversedNodes(es);
            StackOk(root, ps, ns) && Left(ps, ns, token) == Left(paths, nodes, token) && StackSize(ns) < StackSize(nodes)
  {
    StackStep(root, paths, nodes);
  }

  lemma PageDone(page: seq<string>, left: seq<string>, all: seq<string>, limit: nat)
    requires page + left == all && |page| <= limit && (|page| == limit || left == [])
    ensures page == Truncate(all, limit)
  {
    assert page == all[..|page|];
  }

  /** Local `list_blobs_page`: one key more than the limit is collected to see whether a token is needed. */
  method LocalListPage(root: Tree, prefix: string, continuation: Option<string>, limit: nat)
    returns (r: Result<BlobListPage>)
    requires WellFormed(root)
    ensures limit == 0 ==> r == Err(PreconditionFailed)
    ensures limit >= 1 && LocalMatching(root, prefix).Err? ==> r == Err(LocalMatching(root, prefix).error)
    ensures limit >= 1 && LocalMatching(root, prefix).Ok? ==>
              r == Ok(PageOf(LocalMatching(root, prefix).value, continuation, limit))
  {
    if limit == 0 {
      return Err(PreconditionFailed);
    }
    var collected := CollectBlobPage(root, prefix, continuation, limit + 1);
    match collected {
      case Err(e) => return Err(e);
      case Ok(pageKeys) =>
        OneMoreKey(LocalMatching(root, prefix).value, continuation, limit);
        if |pageKeys| > limit {
          return Ok(BlobListPage(pageKeys[..limit], Some(pageKeys[limit - 1])));
        }
        return Ok(BlobListPage(pageKeys, None));
    }
  }

  /** A page and its token from one key more than the limit. */
  lemma OneMoreKey(keys: seq<string>, continuation: Option<string>, limit: nat)
    requires limit >= 1
    ensures var more := Truncate(After(keys, continuation), limit + 1);
            PageOf(keys, continuation, limit) ==
            if |more| > limit then BlobListPage(more[..limit], Some(more[limit - 1])) else BlobListPage(more, None)
  {
    var rest := After(keys, continuation);
    if |rest| > limit {
      assert rest[..limit + 1][..limit] == rest[..limit];
    }
  }

  // ---- SMB ----

  /** The files of the share below the root prefix, which may be missing or not a directory. */
  function SmbFiles(share: Tree, root: Option<string>): seq<string> {
    var start := if root.None? then "" else root.value;
    match Find(share, Comps(start))
    case Node(Dir(es)) => FilesOf(start, es)
    case _ => []
  }

  function Insert(k: string, keys: seq<string>): seq<string> {
    if keys == [] || KeyLess(k, keys[0]) then [k] + keys else [keys[0]] + Insert(k, keys[1..])
  }

  function Sort(keys: seq<string>): seq<string> {
    if keys == [] then [] else Insert(keys[0], Sort(keys[1..]))
  }

  lemma {:induction false} InsertMembers(k: string, keys: seq<string>)
    ensures multiset(Insert(k, keys)) == multiset(keys) + multiset{k}
  {
    if keys != [] && !KeyLess(k, keys[0]) {
      InsertMembers(k, keys[1..]);
      assert keys == [keys[0]] + keys[1..];
    }
  }

  lemma {:induction false} InsertAscending(k: string, keys: seq<string>)
    requires Ascending(keys) && k !in keys
    ensures Ascending(Insert(k, keys))
  {
    if keys == [] {
    } else if KeyLess(k, keys[0]) {
      InsertFront(k, keys);
    } else {
      var rest := keys[1..];
      assert keys == [keys[0]] + rest;
      AscendingParts([keys[0]], rest);
      InsertAscending(k, rest);
      KeyLessTotal(k, keys[0]);
      InsertMembers(k, rest);
      forall x | x in Insert(k, rest)
        ensures KeyLess(keys[0], x)
      {
        assert x in multiset(Insert(k, rest));
        if x != k {
          assert x in rest;
          var i :| 0 <= i < |rest| && rest[i] == x;
          assert keys[i + 1] == x;
        }
      }
      AscendingJoin([keys[0]], Insert(k, rest));
    }
  }

  lemma InsertFront(k: string, keys: seq<string>)
    requires keys != [] && KeyLess(k, keys[0]) && Ascending(keys)
    ensures Ascending([k] + keys)
  {
    forall x | x in keys
      ensures KeyLess(k, x)
    {
      var i :| 0 <= i < |keys| && keys[i] == x;
      if i > 0 {
        KeyLessTransitive(k, keys[0], keys[i]);
      }
    }
    AscendingJoin([k], keys);
  }

  lemma {:induction false} SortFacts(keys: seq<string>)
    ensures multiset(Sort(keys)) == multiset(keys)
    ensures Distinct(keys) ==> Ascending(Sort(keys))
  {
    if keys != [] {
      var rest := keys[1..];
      SortFacts(rest);
      InsertMembers(keys[0], Sort(rest));
      assert keys == [keys[0]] + rest;
      if Distinct(keys) {
        assert keys[0] !in rest;
        assert keys[0] !in multiset(Sort(rest));
        InsertAscending(keys[0], Sort(rest));
      }
    }
  }

  lemma AscendingDistinct(keys: seq<string>)
    requires Ascending(keys)
    ensures Distinct(keys)
  {
    forall i, j | 0 <= i < j < |keys|
      ensures keys[i] != keys[j]
    {
      KeyLessTotal(keys[i], keys[j]);
    }
  }

  lemma SameEmpty(a: seq<string>, b: seq<string>)
    requires a == [] && forall k | k in b :: k in a
    ensures b == []
  {
    if b != [] {
      Head(b);
    }
  }

  lemma Head(b: seq<string>)
    requires b != []
    ensures exists k :: k in b
  {
    assert b[0] in b;
  }

  /** There is one ascending list with given members. */
  lemma {:induction false} AscendingUnique(a: seq<string>, b: seq<string>)
    requires Ascending(a) && Ascending(b) && forall k :: k in a <==> k in b
    ensures a == b
  {
    if a == [] {
      SameEmpty(a, b);
    } else if b == [] {
      SameEmpty(b, a);
    } else {
      assert a[0] in b && b[0] in a;
      var i :| 0 <= i < |b| && b[i] == a[0];
      var j :| 0 <= j < |a| && a[j] == b[0];
      if i > 0 && j > 0 {
        KeyLessTotal(a[0], b[0]);
      }
      AscendingDistinct(a);
      AscendingDistinct(b);
      assert a == [a[0]] + a[1..] && b == [b[0]] + b[1..];
      assert a[0] == b[0];
      assert a[0] !in a[1..] && b[0] !in b[1..];
      forall k
        ensures k in a[1..] <==> k in b[1..]
      {
        assert k in a <==> k in b;
      }
      AscendingParts([a[0]], a[1..]);
      AscendingParts([b[0]], b[1..]);
      AscendingUnique(a[1..], b[1..]);
    }
  }

  lemma FirstNotAgain(a: seq<string>)
    requires PathAscending(a) && a != []
    ensures a[0] !in a[1..] && PathAscending(a[1..]) && a == [a[0]] + a[1..]
  {
    forall i | 0 < i < |a|
      ensures a[i] != a[0]
    {
      PathLessAsymmetric(a[0], a[i]);
    }
  }

  lemma SameFirst(a: seq<string>, b: seq<string>)
    requires PathAscending(a) && PathAscending(b) && a != [] && b != [] && a[0] in b && b[0] in a
    ensures a[0] == b[0]
  {
    var i :| 0 <= i < |b| && b[i] == a[0];
    var j :| 0 <= j < |a| && a[j] == b[0];
    if i > 0 && j > 0 {
      PathLessAsymmetric(a[0], b[0]);
    }
  }

  /** There is one list in path order with given members. */
  lemma {:induction false} PathAscendingUnique(a: seq<string>, b: seq<string>)
    requires PathAscending(a) && PathAscending(b) && forall k :: k in a <==> k in b
    ensures a == b
  {
    if a == [] {
      SameEmpty(a, b);
    } else if b == [] {
      SameEmpty(b, a);
    } else {
      assert a[0] in b && b[0] in a;
      SameFirst(a, b);
      FirstNotAgain(a);
      FirstNotAgain(b);
      forall k
        ensures k in a[1..] <==> k in b[1..]
      {
        assert k in a <==> k in b;
      }
      PathAscendingUnique(a[1..], b[1..]);
    }
  }
}
