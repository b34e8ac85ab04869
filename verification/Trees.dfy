/**
  Directory trees, and the files below a path in the order a sorted walk meets them.

  A directory holds its entries in name order, which is what reading it and sorting gives.
 */
module Trees {
  import opened Wrappers
  import opened KeyOrder
  import opened Keys
  import opened TempNames

  datatype Tree = File | Dir(entries: seq<Entry>)

  datatype Entry = Entry(name: string, node: Tree)

  predicate NameOk(name: string) {
    SafeComponent(name) && '/' !in name
  }

  predicate WellFormed(t: Tree)
    decreases t, 1
  {
    t.Dir? ==> EntriesOk(t.entries)
  }

  predicate EntriesOk(es: seq<Entry>)
    decreases es, 0
  {
    es == [] || (
      && NameOk(es[0].name)
      && WellFormed(es[0].node)
      && EntriesOk(es[1..])
      && forall e | e in es[1..] :: KeyLess(es[0].name, e.name)
    )
  }

  /** Every file at or below `path`, in walk order. */
  function AllFiles(path: string, t: Tree): seq<string>
    decreases t, 1
  {
    match t
    case File => [path]
    case Dir(es) => FilesOf(path, es)
  }

  function FilesOf(dir: string, es: seq<Entry>): seq<string>
    decreases es, 0
  {
    if es == [] then []
    else AllFiles(InParent(dir, es[0].name), es[0].node) + FilesOf(dir, es[1..])
  }

  /** k is the path p or lies below it. */
  predicate Under(p: string, k: string) {
    k == p || p + "/" <= k
  }

  lemma UnderTransitive(p: string, q: string, k: string)
    requires Under(p, q) && Under(q, k)
    ensures Under(p, k)
  {
  }

  lemma {:induction false} FilesUnder(path: string, t: Tree, k: string)
    requires path != "" && k in AllFiles(path, t)
    ensures Under(path, k)
    decreases t, 1
  {
    if t.Dir? {
      var name := EntryOver(path, t.entries, k);
      assert InParent(path, name) == path + "/" + name;
    }
  }

  /** A file listed in a directory lies under one of its entries. */
  lemma {:induction false} EntryOver(dir: string, es: seq<Entry>, k: string) returns (name: string)
    requires k in FilesOf(dir, es)
    requires forall e | e in es :: e.name != "" || dir != ""
    ensures Under(InParent(dir, name), k) && exists e | e in es :: e.name == name
    decreases es, 0
  {
    var first := AllFiles(InParent(dir, es[0].name), es[0].node);
    if k in first {
      name := es[0].name;
      FilesUnder(InParent(dir, name), es[0].node, k);
      assert es[0] in es;
    } else {
      name := EntryOver(dir, es[1..], k);
      var e :| e in es[1..] && e.name == name;
      assert e in es;
    }
  }

  lemma NamesInOrder(n: string, m: string, ra: string, rb: string)
    requires '/' !in n && '/' !in m && KeyLess(n, m)
    requires ra == "" || ra[0] == '/'
    ensures PathLess(n + ra, m + rb)
  {
    var i := Diff(n, m);
    assert (m + rb)[i] == m[i] && m[i] in m;
    if i < |n| {
      assert (n + ra)[i] == n[i] && n[i] in n;
    }
    DiffIs(n + ra, m + rb, i);
  }

  lemma UnderSplit(dir: string, n: string, a: string) returns (r: string)
    requires Under(InParent(dir, n), a)
    ensures a == (if dir == "" then "" else dir + "/") + (n + r) && (r == "" || r[0] == '/')
  {
    r := a[|InParent(dir, n)|..];
  }

  /** Under two sibling names, the walk order of files is the order of the names. */
  lemma SiblingsInOrder(dir: string, n: string, m: string, a: string, b: string)
    requires NameOk(n) && NameOk(m) && KeyLess(n, m)
    requires Under(InParent(dir, n), a) && Under(InParent(dir, m), b)
    ensures PathLess(a, b)
  {
    var p := if dir == "" then "" else dir + "/";
    var ra := UnderSplit(dir, n, a);
    var rb := UnderSplit(dir, m, b);
    NamesInOrder(n, m, ra, rb);
    PathLessPrefixed(p, n + ra, m + rb);
  }

  /** A sorted walk meets files in path order, on every tree. */
  lemma {:induction false} WalkInPathOrder(path: string, t: Tree)
    requires WellFormed(t)
    ensures PathAscending(AllFiles(path, t))
    decreases t, 1
  {
    if t.Dir? {
      EntriesInPathOrder(path, t.entries);
    }
  }

  lemma EntryFacts(es: seq<Entry>, e: Entry)
    requires EntriesOk(es) && e in es
    ensures NameOk(e.name) && WellFormed(e.node)
  {
    if e != es[0] {
      EntryFacts(es[1..], e);
    }
  }

  lemma {:induction false} EntriesInPathOrder(dir: string, es: seq<Entry>)
    requires EntriesOk(es)
    ensures PathAscending(FilesOf(dir, es))
    decreases es, 0
  {
    if es != [] {
      var n := es[0].name;
      var first, rest := AllFiles(InParent(dir, n), es[0].node), FilesOf(dir, es[1..]);
      WalkInPathOrder(InParent(dir, n), es[0].node);
      EntriesInPathOrder(dir, es[1..]);
      forall a, b | a in first && b in rest
        ensures PathLess(a, b)
      {
        FilesUnder(InParent(dir, n), es[0].node, a);
        forall e | e in es[1..]
          ensures NameOk(e.name)
        {
          EntryFacts(es[1..], e);
        }
        var m := EntryOver(dir, es[1..], b);
        SiblingsInOrder(dir, n, m, a, b);
      }
      PathAscendingConcat(first, rest);
    }
  }

  lemma PathAscendingConcat(first: seq<string>, rest: seq<string>)
    requires PathAscending(first) && PathAscending(rest)
    requires forall a, b | a in first && b in rest :: PathLess(a, b)
    ensures PathAscending(first + rest)
  {
  }

  // ---- Looking a path up ----

  datatype Lookup = Node(tree: Tree) | Missing | NotADirectory

  function ChildNode(es: seq<Entry>, name: string): Option<Tree> {
    if es == [] then None
    else if es[0].name == name then Some(es[0].node)
    else ChildNode(es[1..], name)
  }

  function Find(t: Tree, comps: seq<string>): Lookup
    decreases |comps|
  {
    if comps == [] then Node(t) else
    match t
    case File => NotADirectory
    case Dir(es) =>
      match ChildNode(es, comps[0])
      case None => Missing
      case Some(child) => Find(child, comps[1..])
  }

  function Comps(path: string): seq<string> {
    if path == "" then [] else Split(path)
  }

  lemma {:induction false} FindChild(t: Tree, comps: seq<string>, name: string)
    requires Find(t, comps).Node? && Find(t, comps).tree.Dir?
    ensures Find(t, comps + [name]) ==
            match ChildNode(Find(t, comps).tree.entries, name)
            case None => Missing
            case Some(child) => Node(child)
    decreases |comps|
  {
    if comps == [] {
      assert (comps + [name])[1..] == [];
    } else {
      var child := ChildNode(t.entries, comps[0]).value;
      FindChild(child, comps[1..], name);
      assert (comps + [name])[1..] == comps[1..] + [name];
    }
  }

  lemma ChildNodeOf(es: seq<Entry>, i: nat)
    requires EntriesOk(es) && i < |es|
    ensures ChildNode(es, es[i].name) == Some(es[i].node)
  {
    if i > 0 {
      assert es[i] == es[1..][i - 1];
      assert es[i] in es[1..];
      KeyLessTotal(es[0].name, es[i].name);
      ChildNodeOf(es[1..], i - 1);
    }
  }

  lemma CompsOfChild(dir: string, name: string)
    requires NameOk(name)
    ensures Comps(InParent(dir, name)) == Comps(dir) + [name]
  {
    SplitSingle(name);
    if dir != "" {
      SplitConcat(dir, name);
    }
  }

  lemma {:induction false} FoundIsWellFormed(t: Tree, comps: seq<string>)
    requires WellFormed(t) && Find(t, comps).Node?
    ensures WellFormed(Find(t, comps).tree)
    decreases |comps|
  {
    if comps != [] {
      ChildWellFormed(t.entries, comps[0]);
      FoundIsWellFormed(ChildNode(t.entries, comps[0]).value, comps[1..]);
    }
  }

  lemma ChildWellFormed(es: seq<Entry>, name: string)
    requires EntriesOk(es) && ChildNode(es, name).Some?
    ensures WellFormed(ChildNode(es, name).value)
  {
  }

  // ---- The explicit stack of a walk ----

  function Size(t: Tree): nat
    decreases t, 1
  {
    match t
    case File => 1
    case Dir(es) => 1 + SizeOf(es)
  }

  function SizeOf(es: seq<Entry>): nat
    decreases es, 0
  {
    if es == [] then 0 else Size(es[0].node) + SizeOf(es[1..])
  }

  /** `sorted_child_paths` reversed, so that popping from the end meets the smallest name first. */
  function ReversedChildren(dir: string, es: seq<Entry>): (paths: seq<string>)
    ensures |paths| == |es|
  {
    if es == [] then [] else ReversedChildren(dir, es[1..]) + [InParent(dir, es[0].name)]
  }

  function ReversedNodes(es: seq<Entry>): (nodes: seq<Tree>)
    ensures |nodes| == |es|
  {
    if es == [] then [] else ReversedNodes(es[1..]) + [es[0].node]
  }

  /** Every stacked path names the node beside it. */
  ghost predicate StackOk(root: Tree, paths: seq<string>, nodes: seq<Tree>) {
    && |paths| == |nodes|
    && forall i | 0 <= i < |paths| :: Find(root, Comps(paths[i])) == Node(nodes[i]) && WellFormed(nodes[i])
  }

  ghost function StackSize(nodes: seq<Tree>): nat {
    if nodes == [] then 0 else Size(nodes[|nodes| - 1]) + StackSize(nodes[..|nodes| - 1])
  }

  lemma StackSizePop(nodes: seq<Tree>)
    requires nodes != []
    ensures StackSize(nodes) == Size(nodes[|nodes| - 1]) + StackSize(nodes[..|nodes| - 1])
    ensures nodes[|nodes| - 1].Dir? ==> Size(nodes[|nodes| - 1]) == 1 + SizeOf(nodes[|nodes| - 1].entries)
  {
  }

  /** The files still to be met, when the stack is popped from its end. */
  ghost function StackFiles(paths: seq<string>, nodes: seq<Tree>): seq<string>
    requires |paths| == |nodes|
  {
    if paths == [] then []
    else
      var last := |paths| - 1;
      AllFiles(paths[last], nodes[last]) + StackFiles(paths[..last], nodes[..last])
  }

  lemma StartFiles(start: string, top: Tree)
    ensures StackFiles([start], [top]) == AllFiles(start, top)
  {
    assert [start][..0] == [] && [top][..0] == [];
  }

  lemma {:induction false} PushChildren(paths: seq<string>, nodes: seq<Tree>, dir: string, es: seq<Entry>)
    requires |paths| == |nodes|
    ensures StackFiles(paths + ReversedChildren(dir, es), nodes + ReversedNodes(es)) ==
            FilesOf(dir, es) + StackFiles(paths, nodes)
  {
    var ps, ns := paths + ReversedChildren(dir, es), nodes + ReversedNodes(es);
    if es == [] {
      assert ps == paths && ns == nodes;
    } else {
      PushChildren(paths, nodes, dir, es[1..]);
      PopPushed(paths, ReversedChildren(dir, es[1..]), InParent(dir, es[0].name));
      PopPushed(nodes, ReversedNodes(es[1..]), es[0].node);
      var first := AllFiles(InParent(dir, es[0].name), es[0].node);
      var rest, below := FilesOf(dir, es[1..]), StackFiles(paths, nodes);
      assert first + (rest + below) == (first + rest) + below;
    }
  }

  lemma PopPushed<T>(s: seq<T>, pushed: seq<T>, last: T)
    ensures var t := s + (pushed + [last]);
            t[|t| - 1] == last && t[..|t| - 1] == s + pushed
  {
  }

  lemma {:induction false} PushSize(nodes: seq<Tree>, es: seq<Entry>)
    ensures StackSize(nodes + ReversedNodes(es)) == SizeOf(es) + StackSize(nodes)
  {
    if es == [] {
      assert nodes + ReversedNodes(es) == nodes;
    } else {
      PushSize(nodes, es[1..]);
      PopPushed(nodes, ReversedNodes(es[1..]), es[0].node);
    }
  }

  lemma {:induction false} ChildrenOk(root: Tree, dir: string, es: seq<Entry>, all: seq<Entry>)
    requires Find(root, Comps(dir)) == Node(Dir(all)) && EntriesOk(all)
    requires |es| <= |all| && es == all[|all| - |es|..]
    ensures StackOk(root, ReversedChildren(dir, es), ReversedNodes(es))
  {
    if es != [] {
      ChildrenOk(root, dir, es[1..], all);
      var e := es[0];
      assert e == all[|all| - |es|];
      assert e in all;
      EntryFacts(all, e);
      ChildNodeOf(all, |all| - |es|);
      CompsOfChild(dir, e.name);
      FindChild(root, Comps(dir), e.name);
    }
  }

  lemma StackOkConcat(root: Tree, p1: seq<string>, n1: seq<Tree>, p2: seq<string>, n2: seq<Tree>)
    requires StackOk(root, p1, n1) && StackOk(root, p2, n2)
    ensures StackOk(root, p1 + p2, n1 + n2)
  {
    var ps, ns := p1 + p2, n1 + n2;
    forall i | 0 <= i < |ps|
      ensures Find(root, Comps(ps[i])) == Node(ns[i]) && WellFormed(ns[i])
    {
      if i < |p1| {
        assert ps[i] == p1[i] && ns[i] == n1[i];
      } else {
        assert ps[i] == p2[i - |p1|] && ns[i] == n2[i - |n1|];
      }
    }
  }

  lemma PathIsFound(root: Tree, paths: seq<string>, nodes: seq<Tree>)
    requires StackOk(root, paths, nodes) && paths != []
    ensures Find(root, Comps(paths[|paths| - 1])) == Node(nodes[|nodes| - 1])
  {
  }

  lemma StackOkPop(root: Tree, paths: seq<string>, nodes: seq<Tree>)
    requires StackOk(root, paths, nodes) && |paths| > 0
    ensures StackOk(root, paths[..|paths| - 1], nodes[..|paths| - 1])
  {
  }

  /** Popping a directory and pushing its children keeps the stack in step with the tree. */
  lemma StackStep(root: Tree, paths: seq<string>, nodes: seq<Tree>)
    requires StackOk(root, paths, nodes) && |paths| > 0 && nodes[|nodes| - 1].Dir?
    ensures var last := |paths| - 1;
            var es := nodes[last].entries;
            var ps, ns := paths[..last] + ReversedChildren(paths[last], es), nodes[..last] + ReversedNodes(es);
            StackOk(root, ps, ns) && StackFiles(ps, ns) == StackFiles(paths, nodes) && StackSize(ns) < StackSize(nodes)
  {
    var last := |paths| - 1;
    var es := nodes[last].entries;
    assert StackOk(root, paths[..last] + ReversedChildren(paths[last], es), nodes[..last] + ReversedNodes(es)) by {
      StackOkPop(root, paths, nodes);
      assert es[0..] == es;
      ChildrenOk(root, paths[last], es, es);
      StackOkConcat(root, paths[..last], nodes[..last], ReversedChildren(paths[last], es), ReversedNodes(es));
    }
    PushChildren(paths[..last], nodes[..last], paths[last], es);
    PushSize(nodes[..last], es);
  }
}
