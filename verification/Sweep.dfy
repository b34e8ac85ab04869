/** The sweep of stale temporary files: a walk of the whole storage root that removes as it goes. */
module Sweep {
  import opened Wrappers
  import opened KeyOrder
  import opened TempNames
  import opened Trees
  import opened Listing
  import opened PrefixListing
  import opened Sequences

  /** `sorted_child_paths` as it is: the sweep pushes children unreversed, and so meets the last name first. */
  function Children(dir: string, es: seq<Entry>): (paths: seq<string>)
    ensures |paths| == |es|
  {
    if es == [] then [] else [InParent(dir, es[0].name)] + Children(dir, es[1..])
  }

  function Nodes(es: seq<Entry>): (nodes: seq<Tree>)
    ensures |nodes| == |es|
  {
    if es == [] then [] else [es[0].node] + Nodes(es[1..])
  }

  /** The files still to be met, in no particular order. */
  ghost function Unmet(paths: seq<string>, nodes: seq<Tree>): multiset<string>
    requires |paths| == |nodes|
  {
    if paths == [] then multiset{}
    else
      var last := |paths| - 1;
      multiset(AllFiles(paths[last], nodes[last])) + Unmet(paths[..last], nodes[..last])
  }

  lemma UnmetPush(paths: seq<string>, nodes: seq<Tree>, path: string, node: Tree)
    requires |paths| == |nodes|
    ensures Unmet(paths + [path], nodes + [node]) == multiset(AllFiles(path, node)) + Unmet(paths, nodes)
  {
    assert (paths + [path])[..|paths|] == paths && (nodes + [node])[..|nodes|] == nodes;
  }

  lemma SizePush(nodes: seq<Tree>, node: Tree)
    ensures StackSize(nodes + [node]) == Size(node) + StackSize(nodes)
  {
    assert (nodes + [node])[..|nodes|] == nodes;
  }

  lemma PushOne<T>(s: seq<T>, first: T, rest: seq<T>)
    ensures (s + [first]) + rest == s + ([first] + rest)
  {
  }

  lemma FilesOfParts(dir: string, es: seq<Entry>)
    requires es != []
    ensures multiset(FilesOf(dir, es)) ==
            multiset(AllFiles(InParent(dir, es[0].name), es[0].node)) + multiset(FilesOf(dir, es[1..]))
  {
  }

  lemma {:induction false} UnmetChildren(paths: seq<string>, nodes: seq<Tree>, dir: string, es: seq<Entry>)
    requires |paths| == |nodes|
    ensures Unmet(paths + Children(dir, es), nodes + Nodes(es)) == multiset(FilesOf(dir, es)) + Unmet(paths, nodes)
    decreases |es|
  {
    if es == [] {
      assert paths + Children(dir, es) == paths && nodes + Nodes(es) == nodes;
    } else {
      var path, node := InParent(dir, es[0].name), es[0].node;
      PushOne(paths, path, Children(dir, es[1..]));
      PushOne(nodes, node, Nodes(es[1..]));
      UnmetChildren(paths + [path], nodes + [node], dir, es[1..]);
      UnmetPush(paths, nodes, path, node);
      FilesOfParts(dir, es);
    }
  }

  lemma {:induction false} SizeChildren(nodes: seq<Tree>, es: seq<Entry>)
    ensures StackSize(nodes + Nodes(es)) == SizeOf(es) + StackSize(nodes)
    decreases |es|
  {
    if es == [] {
      assert nodes + Nodes(es) == nodes;
    } else {
      PushOne(nodes, es[0].node, Nodes(es[1..]));
      SizeChildren(nodes + [es[0].node], es[1..]);
      SizePush(nodes, es[0].node);
    }
  }

  lemma {:induction false} ChildrenStackOk(root: Tree, dir: string, es: seq<Entry>, all: seq<Entry>)
    requires Find(root, Comps(dir)) == Node(Dir(all)) && EntriesOk(all)
    requires |es| <= |all| && es == all[|all| - |es|..]
    ensures StackOk(root, Children(dir, es), Nodes(es))
  {
    if es != [] {
      ChildrenStackOk(root, dir, es[1..], all);
      var e := es[0];
      assert e == all[|all| - |es|];
      assert e in all;
      EntryFacts(all, e);
      ChildNodeOf(all, |all| - |es|);
      CompsOfChild(dir, e.name);
      FindChild(root, Comps(dir), e.name);
    }
  }

  /** Popping a directory and pushing its children leaves the same files to meet. */
  lemma DirectoryStep(root: Tree, paths: seq<string>, nodes: seq<Tree>)
    requires StackOk(root, paths, nodes) && |paths| > 0 && nodes[|nodes| - 1].Dir?
    ensures var last := |paths| - 1;
            var es := nodes[last].entries;
            var ps, ns := paths[..last] + Children(paths[last], es), nodes[..last] + Nodes(es);
            StackOk(root, ps, ns) && Unmet(ps, ns) == Unmet(paths, nodes) && StackSize(ns) < StackSize(nodes)
  {
    var last := |paths| - 1;
    var es := nodes[last].entries;
    assert StackOk(root, paths[..last] + Children(paths[last], es), nodes[..last] + Nodes(es)) by {
      StackOkPop(root, paths, nodes);
      assert es[0..] == es;
      ChildrenStackOk(root, paths[last], es, es);
      StackOkConcat(root, paths[..last], nodes[..last], Children(paths[last], es), Nodes(es));
    }
    UnmetChildren(paths[..last], nodes[..last], paths[last], es);
    SizeChildren(nodes[..last], es);
  }

  /** Ages are known of files whose modification time can be read and is not in the future. */
  predicate Stale(path: string, ages: map<string, nat>, olderThan: nat) {
    IsUploading(path) && path in ages && ages[path] >= olderThan
  }

  function StaleOf(files: set<string>, ages: map<string, nat>, olderThan: nat): set<string> {
    set f | f in files && Stale(f, ages, olderThan)
  }

  /** The stale files among those looked at. */
  ghost function StaleSeen(looked: seq<string>, ages: map<string, nat>, olderThan: nat): set<string> {
    StaleOf((set f | f in looked), ages, olderThan)
  }

  lemma LookAt(looked: seq<string>, path: string, ages: map<string, nat>, olderThan: nat)
    requires path !in looked
    ensures var gone := StaleSeen(looked, ages, olderThan);
            && path !in gone
            && StaleSeen(looked + [path], ages, olderThan) == if Stale(path, ages, olderThan) then gone + {path} else gone
  {
  }

  lemma OneMoreGone(files: set<string>, gone: set<string>, path: string, stale: bool)
    ensures (if stale then (files - gone) - {path} else files - gone) == files - (gone + if stale then {path} else {})
  {
  }

  /** Every file is either looked at or still to be met, and none twice. */
  ghost predicate Accounted(looked: seq<string>, paths: seq<string>, nodes: seq<Tree>, all: seq<string>) {
    |paths| == |nodes| && multiset(looked) + Unmet(paths, nodes) == multiset(all)
  }

  /** The storage root: directories that stay as they are, the files whose removal fails, the files present, and the paths looked at. */
  class Storage {
    const tree: Tree
    const undeletable: set<string>
    var files: set<string>
    ghost var looked: seq<string>

    constructor (tree: Tree, undeletable: set<string>)
      requires WellFormed(tree)
      ensures this.tree == tree && this.undeletable == undeletable && files == (set f | f in AllFiles("", tree)) && looked == []
    {
      this.tree, this.undeletable, files, looked := tree, undeletable, (set f | f in AllFiles("", tree)), [];
    }

    method RemoveFile(path: string) returns (ok: bool)
      modifies this`files
      ensures ok <==> path in old(files) && path !in undeletable
      ensures files == if ok then old(files) - {path} else old(files)
    {
      ok := path in files && path !in undeletable;
      if ok {
        files := files - {path};
      }
    }

    /** What has been done so far: every file looked at belongs to the tree, and the stale ones among them are gone. */
    ghost predicate Swept(all: seq<string>, files0: set<string>, ages: map<string, nat>, olderThan: nat)
      reads this
    {
      && files == files0 - StaleSeen(looked, ages, olderThan)
      && forall f | f in looked :: f in all
    }

    /** No file looked at was stale and could not be deleted. */
    ghost predicate NoneStuck(ages: map<string, nat>, olderThan: nat)
      reads this
    {
      StaleSeen(looked, ages, olderThan) !! undeletable
    }

    /** One file: remove it if it is stale; None if that fails. */
    method LookAtFile(path: string, ages: map<string, nat>, olderThan: nat) returns (removed: Option<nat>)
      requires path in files && path !in looked && NoneStuck(ages, olderThan)
      modifies this
      ensures NoneStuck(ages, olderThan)
      ensures removed.None? <==> Stale(path, ages, olderThan) && path in undeletable
      ensures removed.None? ==> files == old(files) && looked == old(looked)
      ensures removed.Some? ==>
                && looked == old(looked) + [path]
                && files == (if Stale(path, ages, olderThan) then old(files) - {path} else old(files))
                && StaleSeen(looked, ages, olderThan) ==
                   StaleSeen(old(looked), ages, olderThan) + (if Stale(path, ages, olderThan) then {path} else {})
                && |StaleSeen(looked, ages, olderThan)| == |StaleSeen(old(looked), ages, olderThan)| + removed.value
    {
      LookAt(looked, path, ages, olderThan);
      var count := 0;
      if IsUploading(path) && path in ages && ages[path] >= olderThan {
        var ok := RemoveFile(path);
        if !ok {
          return None;
        }
        count := 1;
      }
      looked := looked + [path];
      return Some(count);
    }

    /** A file popped from the stack. */
    method VisitFile(ghost paths: seq<string>, ghost nodes: seq<Tree>, path: string, ages: map<string, nat>, olderThan: nat,
                     ghost all: seq<string>, ghost files0: set<string>) returns (removed: Option<nat>)
      requires |paths| == |nodes| > 0 && nodes[|nodes| - 1].File? && path == paths[|paths| - 1]
      requires files0 == (set f | f in all) && forall f :: multiset(all)[f] <= 1
      requires Accounted(looked, paths, nodes, all) && Swept(all, files0, ages, olderThan) && NoneStuck(ages, olderThan)
      modifies this
      ensures Swept(all, files0, ages, olderThan) && NoneStuck(ages, olderThan)
      ensures removed.None? ==> path in all && Stale(path, ages, olderThan) && path in undeletable
      ensures removed.Some? ==>
                && Accounted(looked, paths[..|paths| - 1], nodes[..|paths| - 1], all)
                && |StaleSeen(looked, ages, olderThan)| == |StaleSeen(old(looked), ages, olderThan)| + removed.value
    {
      MeetFile(paths, nodes, looked, all);
      ghost var before := StaleSeen(looked, ages, olderThan);
      removed := LookAtFile(path, ages, olderThan);
      OneMoreGone(files0, before, path, Stale(path, ages, olderThan));
    }

    /** The loop of `sweep_temp_files`. */
    method Walk(ages: map<string, nat>, olderThan: nat) returns (r: Result<nat>)
      requires WellFormed(tree) && files == (set f | f in AllFiles("", tree)) && looked == []
      modifies this
      ensures Swept(AllFiles("", tree), old(files), ages, olderThan)
      ensures r.Err? ==> r.error == Io && exists f :: f in AllFiles("", tree) && Stale(f, ages, olderThan) && f in undeletable
      ensures r.Ok? ==> NoneStuck(ages, olderThan) && multiset(looked) == multiset(AllFiles("", tree)) && r.value == |StaleSeen(looked, ages, olderThan)|
    {
      ghost var all, files0 := AllFiles("", tree), files;
      FilesDistinct(tree);
      var removed := 0;
      var stack := [""];
      ghost var nodes := [tree];
      StartAccounted(tree);
      while stack != []
        invariant StackOk(tree, stack, nodes)
        invariant Accounted(looked, stack, nodes, all)
        invariant Swept(all, files0, ages, olderThan) && NoneStuck(ages, olderThan) && removed == |StaleSeen(looked, ages, olderThan)|
        decreases StackSize(nodes)
      {
        var last := |stack| - 1;
        var path := stack[last];
        StackOkPop(tree, stack, nodes);
        match Find(tree, Comps(path)).tree {
          case File =>
            var result := VisitFile(stack, nodes, path, ages, olderThan, all, files0);
            if result.None? {
              return Err(Io);
            }
            StackSizePop(nodes);
            removed := removed + result.value;
            stack, nodes := stack[..last], nodes[..last];
          case Dir(entries) =>
            DirectoryStep(tree, stack, nodes);
            stack := stack[..last] + Children(path, entries);
            nodes := nodes[..last] + Nodes(entries);
        }
      }
      return Ok(removed);
    }

    /**
      `sweep_temp_files`: it succeeds exactly if every stale temporary file can be deleted. Success means every file was
      looked at once and exactly the stale temporary ones are gone, as many as returned; an error has removed stale ones only.
     */
    method SweepTempFiles(ages: map<string, nat>, olderThan: nat) returns (r: Result<nat>)
      requires WellFormed(tree) && tree.Dir? && files == (set f | f in AllFiles("", tree)) && looked == []
      modifies this
      ensures r.Ok? <==> StaleOf(old(files), ages, olderThan) !! undeletable
      ensures r.Err? ==> r.error == Io
      ensures r.Ok? ==>
                && files == old(files) - StaleOf(old(files), ages, olderThan)
                && r.value == |StaleOf(old(files), ages, olderThan)|
                && multiset(looked) == multiset(AllFiles("", tree))
                && files == (set f | f in AllFiles("", PrunedRoot(tree, ages, olderThan)))
                && (forall f | f in old(files) :: f !in files <==> EndsWith(f, TEMP_SUFFIX) && f in ages && ages[f] >= olderThan)
      ensures files <= old(files) && old(files) - files <= StaleOf(old(files), ages, olderThan)
    {
      r := Walk(ages, olderThan);
      if r.Err? {
        ghost var f :| f in AllFiles("", tree) && Stale(f, ages, olderThan) && f in undeletable;
        assert f in StaleOf(old(files), ages, olderThan);
      } else {
        SameMembers(looked, AllFiles("", tree));
        assert (set f | f in looked) == old(files);
        SweptTree(tree, ages, olderThan);
        forall f | f in old(files)
          ensures Stale(f, ages, olderThan) <==> EndsWith(f, TEMP_SUFFIX) && f in ages && ages[f] >= olderThan
        {
          UploadingIsSuffix(f);
        }
      }
    }
  }

  lemma SameMembers(a: seq<string>, b: seq<string>)
    requires multiset(a) == multiset(b)
    ensures forall f :: f in a <==> f in b
  {
    forall f
      ensures f in a <==> f in b
    {
      assert f in a <==> f in multiset(a);
      assert f in b <==> f in multiset(b);
    }
  }

  lemma StartAccounted(tree: Tree)
    ensures Accounted([], [""], [tree], AllFiles("", tree))
  {
    assert [""][..0] == [] && [tree][..0] == [];
  }

  lemma FilesDistinct(tree: Tree)
    requires WellFormed(tree)
    ensures forall f :: multiset(AllFiles("", tree))[f] <= 1
  {
    WalkInPathOrder("", tree);
    forall f
      ensures multiset(AllFiles("", tree))[f] <= 1
    {
      AtMostOnce(AllFiles("", tree), f);
    }
  }

  lemma FirstIsGone(files: seq<string>)
    requires PathAscending(files) && files != []
    ensures files[0] !in files[1..]
  {
    forall i | 0 < i < |files|
      ensures files[i] != files[0]
    {
      PathLessAsymmetric(files[0], files[i]);
    }
  }

  lemma {:induction false} AtMostOnce(files: seq<string>, f: string)
    requires PathAscending(files)
    ensures multiset(files)[f] <= 1
  {
    if files != [] {
      var rest := files[1..];
      assert files == [files[0]] + rest;
      assert PathAscending(rest);
      AtMostOnce(rest, f);
      FirstIsGone(files);
    }
  }

  /** A file popped from the stack is one that has not been looked at. */
  lemma MeetFile(paths: seq<string>, nodes: seq<Tree>, looked: seq<string>, all: seq<string>)
    requires |paths| == |nodes| > 0 && nodes[|nodes| - 1].File?
    requires Accounted(looked, paths, nodes, all) && forall f :: multiset(all)[f] <= 1
    ensures var last := |paths| - 1;
            && paths[last] !in looked && paths[last] in all
            && Accounted(looked + [paths[last]], paths[..last], nodes[..last], all)
  {
    var last := |paths| - 1;
    assert multiset(AllFiles(paths[last], nodes[last])) == multiset{paths[last]};
    assert paths[last] in multiset(all);
    assert multiset(looked)[paths[last]] + 1 <= multiset(all)[paths[last]];
  }

  // ---- The tree a sweep leaves ----

  /** What the sweep leaves of a list of files. */
  function Survivors(files: seq<string>, ages: map<string, nat>, olderThan: nat): seq<string> {
    if files == [] then []
    else (if Stale(files[0], ages, olderThan) then [] else [files[0]]) + Survivors(files[1..], ages, olderThan)
  }

  /** The entries of a directory without the stale files below them; directories stay. */
  function Pruned(dir: string, es: seq<Entry>, ages: map<string, nat>, olderThan: nat): seq<Entry>
    decreases es, 0
  {
    if es == [] then []
    else
      var path, rest := InParent(dir, es[0].name), Pruned(dir, es[1..], ages, olderThan);
      match es[0].node
      case File => if Stale(path, ages, olderThan) then rest else [es[0]] + rest
      case Dir(inner) => [Entry(es[0].name, Dir(Pruned(path, inner, ages, olderThan)))] + rest
  }

  function PrunedRoot(root: Tree, ages: map<string, nat>, olderThan: nat): Tree {
    match root
    case File => File
    case Dir(es) => Dir(Pruned("", es, ages, olderThan))
  }

  lemma {:induction false} SurvivorsConcat(a: seq<string>, b: seq<string>, ages: map<string, nat>, olderThan: nat)
    ensures Survivors(a + b, ages, olderThan) == Survivors(a, ages, olderThan) + Survivors(b, ages, olderThan)
  {
    if a == [] {
      assert a + b == b;
    } else {
      SurvivorsConcat(a[1..], b, ages, olderThan);
      ConcatHead(a, b);
      var first := if Stale(a[0], ages, olderThan) then [] else [a[0]];
      ConcatAssociative(first, Survivors(a[1..], ages, olderThan), Survivors(b, ages, olderThan));
    }
  }

  lemma {:induction false} SurvivorsMembers(files: seq<string>, ages: map<string, nat>, olderThan: nat)
    ensures forall f :: f in Survivors(files, ages, olderThan) <==> f in files && !Stale(f, ages, olderThan)
  {
    if files != [] {
      SurvivorsMembers(files[1..], ages, olderThan);
      assert files == [files[0]] + files[1..];
    }
  }

  /** The files of the pruned tree are the files that are not stale, in the same order. */
  lemma {:induction false} PrunedFiles(dir: string, es: seq<Entry>, ages: map<string, nat>, olderThan: nat)
    ensures FilesOf(dir, Pruned(dir, es, ages, olderThan)) == Survivors(FilesOf(dir, es), ages, olderThan)
    decreases es
  {
    if es != [] {
      var path, rest := InParent(dir, es[0].name), Pruned(dir, es[1..], ages, olderThan);
      PrunedFiles(dir, es[1..], ages, olderThan);
      SurvivorsConcat(AllFiles(path, es[0].node), FilesOf(dir, es[1..]), ages, olderThan);
      if es[0].node.Dir? {
        PrunedFiles(path, es[0].node.entries, ages, olderThan);
        FilesOfFirst(dir, Entry(es[0].name, Dir(Pruned(path, es[0].node.entries, ages, olderThan))), rest);
      } else {
        OneSurvivor(path, ages, olderThan);
        FilesOfFirst(dir, es[0], rest);
      }
    }
  }

  lemma FilesOfFirst(dir: string, e: Entry, rest: seq<Entry>)
    ensures FilesOf(dir, [e] + rest) == AllFiles(InParent(dir, e.name), e.node) + FilesOf(dir, rest)
  {
    assert ([e] + rest)[1..] == rest;
  }

  lemma OneSurvivor(path: string, ages: map<string, nat>, olderThan: nat)
    ensures Survivors([path], ages, olderThan) == if Stale(path, ages, olderThan) then [] else [path]
  {
    assert [path][1..] == [];
  }

  lemma {:induction false} PrunedNames(dir: string, es: seq<Entry>, ages: map<string, nat>, olderThan: nat, e: Entry) returns (was: Entry)
    requires e in Pruned(dir, es, ages, olderThan)
    ensures was in es && was.name == e.name
  {
    var rest := Pruned(dir, es[1..], ages, olderThan);
    if e in rest {
      was := PrunedNames(dir, es[1..], ages, olderThan, e);
    } else {
      was := es[0];
    }
  }

  lemma {:induction false} PrunedOk(dir: string, es: seq<Entry>, ages: map<string, nat>, olderThan: nat)
    requires EntriesOk(es)
    ensures EntriesOk(Pruned(dir, es, ages, olderThan))
    decreases es
  {
    if es != [] {
      var path, rest := InParent(dir, es[0].name), Pruned(dir, es[1..], ages, olderThan);
      PrunedOk(dir, es[1..], ages, olderThan);
      forall e | e in rest
        ensures KeyLess(es[0].name, e.name)
      {
        var was := PrunedNames(dir, es[1..], ages, olderThan, e);
      }
      if es[0].node.Dir? {
        PrunedOk(path, es[0].node.entries, ages, olderThan);
        PrependOk(Entry(es[0].name, Dir(Pruned(path, es[0].node.entries, ages, olderThan))), rest);
      } else {
        PrependOk(es[0], rest);
      }
    }
  }

  lemma PrependOk(e: Entry, rest: seq<Entry>)
    requires NameOk(e.name) && WellFormed(e.node) && EntriesOk(rest) && forall r | r in rest :: KeyLess(e.name, r.name)
    ensures EntriesOk([e] + rest)
  {
    assert ([e] + rest)[1..] == rest;
  }

  /** A sweep that succeeds leaves the files of the pruned tree, which is a tree as before. */
  lemma SweptTree(root: Tree, ages: map<string, nat>, olderThan: nat)
    requires WellFormed(root) && root.Dir?
    ensures WellFormed(PrunedRoot(root, ages, olderThan))
    ensures AllFiles("", PrunedRoot(root, ages, olderThan)) == Survivors(AllFiles("", root), ages, olderThan)
    ensures forall f :: f in AllFiles("", PrunedRoot(root, ages, olderThan)) <==> f in AllFiles("", root) && !Stale(f, ages, olderThan)
  {
    PrunedOk("", root.entries, ages, olderThan);
    PrunedFiles("", root.entries, ages, olderThan);
    SurvivorsMembers(AllFiles("", root), ages, olderThan);
  }

  /** Being below a file survives a sweep exactly if one of the files above survives. */
  lemma SweptAbove(root: Tree, prefix: string, ages: map<string, nat>, olderThan: nat)
    requires WellFormed(root) && root.Dir?
    ensures BelowAFile(PrunedRoot(root, ages, olderThan), prefix) <==>
              exists f :: f in AllFiles("", root) && f + "/" <= prefix && !Stale(f, ages, olderThan)
  {
    SweptTree(root, ages, olderThan);
  }

  /** A listing that succeeds is repeated by the tree a sweep leaves. */
  lemma SuccessIsKept(root: Tree, prefix: string, ages: map<string, nat>, olderThan: nat)
    requires WellFormed(root) && root.Dir? && LocalMatching(root, prefix).Ok?
    ensures LocalMatching(PrunedRoot(root, ages, olderThan), prefix) == LocalMatching(root, prefix)
  {
    var left := PrunedRoot(root, ages, olderThan);
    SweptTree(root, ages, olderThan);
    SweptAbove(root, prefix, ages, olderThan);
    LocalMatchingFailsIff(root, prefix);
    LocalMatchingFailsIff(left, prefix);
    LocalPrefixMembers(root, prefix);
    LocalPrefixMembers(left, prefix);
    LocalMatchingInPathOrder(root, prefix);
    LocalMatchingInPathOrder(left, prefix);
    PathAscendingUnique(LocalMatching(left, prefix).value, LocalMatching(root, prefix).value);
  }

  /** Below a path that cannot be looked up there are no files. */
  lemma NothingBelowAFile(root: Tree, prefix: string, k: string)
    requires WellFormed(root) && LocalMatching(root, prefix) == Err(Io) && k in AllFiles("", root)
    ensures !Below(prefix, k)
  {
    FilesBelow(root, prefix, k);
  }

  lemma FailureTurnsEmpty(root: Tree, prefix: string, ages: map<string, nat>, olderThan: nat)
    requires WellFormed(root) && root.Dir? && LocalMatching(root, prefix) == Err(Io)
    requires forall f | f in AllFiles("", root) && f + "/" <= prefix :: Stale(f, ages, olderThan)
    ensures LocalMatching(PrunedRoot(root, ages, olderThan), prefix) == Ok([])
  {
    var left := PrunedRoot(root, ages, olderThan);
    SweptTree(root, ages, olderThan);
    SweptAbove(root, prefix, ages, olderThan);
    LocalMatchingFailsIff(root, prefix);
    LocalMatchingFailsIff(left, prefix);
    LocalPrefixMembers(left, prefix);
    forall k | k in LocalMatching(left, prefix).value
      ensures false
    {
      NothingBelowAFile(root, prefix, k);
    }
    SameEmpty([], LocalMatching(left, prefix).value);
  }

  /**
    The tree a sweep leaves lists exactly what was listed before, as a whole and under any prefix, errors included,
    but for one case: a prefix below files that are all stale was refused, and lists nothing afterwards.
   */
  lemma SweepKeepsListing(root: Tree, prefix: string, ages: map<string, nat>, olderThan: nat)
    requires WellFormed(root) && root.Dir?
    ensures var left := PrunedRoot(root, ages, olderThan);
            && LocalMatching(left, "") == LocalMatching(root, "")
            && (LocalMatching(root, prefix).Ok? ==> LocalMatching(left, prefix) == LocalMatching(root, prefix))
            && (LocalMatching(left, prefix) == LocalMatching(root, prefix) <==>
                  !(LocalMatching(root, prefix) == Err(Io)
                    && forall f | f in AllFiles("", root) && f + "/" <= prefix :: Stale(f, ages, olderThan)))
            && (LocalMatching(left, prefix) != LocalMatching(root, prefix) ==> LocalMatching(left, prefix) == Ok([]))
  {
    var left := PrunedRoot(root, ages, olderThan);
    SuccessIsKept(root, "", ages, olderThan);
    if LocalMatching(root, prefix).Ok? {
      SuccessIsKept(root, prefix, ages, olderThan);
    } else {
      SweptTree(root, ages, olderThan);
      SweptAbove(root, prefix, ages, olderThan);
      LocalMatchingFailsIff(root, prefix);
      LocalMatchingFailsIff(left, prefix);
      if LocalMatching(root, prefix) == Err(Io) && forall f | f in AllFiles("", root) && f + "/" <= prefix :: Stale(f, ages, olderThan) {
        FailureTurnsEmpty(root, prefix, ages, olderThan);
      }
    }
  }

  /** A file can be lost to a sweep exactly when its path ends in the temporary suffix, in whatever directory it lies. */
  lemma KeyAtRiskIff(root: Tree, key: string)
    requires WellFormed(root) && root.Dir? && key in AllFiles("", root)
    ensures (exists ages, olderThan :: key !in AllFiles("", PrunedRoot(root, ages, olderThan))) <==> EndsWith(key, TEMP_SUFFIX)
  {
    UploadingIsSuffix(key);
    if EndsWith(key, TEMP_SUFFIX) {
      SweptTree(root, map[key := 0], 0);
    } else {
      forall ages, olderThan
        ensures key in AllFiles("", PrunedRoot(root, ages, olderThan))
      {
        SweptTree(root, ages, olderThan);
      }
    }
  }
}
