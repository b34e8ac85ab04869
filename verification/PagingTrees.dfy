/** The paging condition on a directory tree. */
module PagingTrees {
  import opened Wrappers
  import opened KeyOrder
  import opened TempNames
  import opened Trees
  import opened Paging
  import opened Listing
  import opened PagingWitnesses

  /** There is no file at or below the node. */
  predicate Empty(t: Tree)
    decreases t, 1
  {
    t.Dir? && AllEmpty(t.entries)
  }

  predicate AllEmpty(es: seq<Entry>)
    decreases es, 0
  {
    es == [] || (Empty(es[0].node) && AllEmpty(es[1..]))
  }

  lemma {:induction false} FilesIffNotEmpty(path: string, t: Tree)
    ensures AllFiles(path, t) == [] <==> Empty(t)
    decreases t, 1
  {
    if t.Dir? {
      EntryFilesIffNotEmpty(path, t.entries);
    }
  }

  lemma {:induction false} EntryFilesIffNotEmpty(dir: string, es: seq<Entry>)
    ensures FilesOf(dir, es) == [] <==> AllEmpty(es)
    decreases es, 0
  {
    if es != [] {
      FilesIffNotEmpty(InParent(dir, es[0].name), es[0].node);
      EntryFilesIffNotEmpty(dir, es[1..]);
    }
  }

  /** The directory d, with a file below it, stands beside s, with a file at or below it, whose name extends d's below the separator. */
  predicate BadPair(d: Entry, s: Entry) {
    d.node.Dir? && !Empty(d.node) && !Empty(s.node) && ExtendsBelowSlash(d.name, s.name)
  }

  /** Some directory of the tree holds such a pair. */
  ghost predicate HasBadPair(t: Tree)
    decreases t, 1
  {
    t.Dir? && (EntriesHaveBadPair(t.entries) || exists d, s | d in t.entries && s in t.entries :: BadPair(d, s))
  }

  ghost predicate EntriesHaveBadPair(es: seq<Entry>)
    decreases es, 0
  {
    es != [] && (HasBadPair(es[0].node) || EntriesHaveBadPair(es[1..]))
  }

  lemma BadPairBelow(es: seq<Entry>, e: Entry)
    requires e in es && HasBadPair(e.node)
    ensures EntriesHaveBadPair(es)
  {
    if e != es[0] {
      BadPairBelow(es[1..], e);
    }
  }

  lemma BadPairAbove(es: seq<Entry>) returns (e: Entry)
    requires EntriesHaveBadPair(es)
    ensures e in es && HasBadPair(e.node)
  {
    if HasBadPair(es[0].node) {
      e := es[0];
    } else {
      e := BadPairAbove(es[1..]);
    }
  }

  lemma {:induction false} FileOfEntry(dir: string, es: seq<Entry>, e: Entry, k: string)
    requires e in es && k in AllFiles(InParent(dir, e.name), e.node)
    ensures k in FilesOf(dir, es)
  {
    if e != es[0] {
      FileOfEntry(dir, es[1..], e, k);
    }
  }

  lemma {:induction false} EntryOfFile(dir: string, es: seq<Entry>, k: string) returns (e: Entry)
    requires k in FilesOf(dir, es)
    ensures e in es && k in AllFiles(InParent(dir, e.name), e.node)
  {
    if k in AllFiles(InParent(dir, es[0].name), es[0].node) {
      e := es[0];
    } else {
      e := EntryOfFile(dir, es[1..], k);
    }
  }

  /** Under two names of one directory, paths clash exactly when the first has more to it and the second extends its name below the separator. */
  lemma NamesClash(n: string, m: string, ra: string, rb: string)
    requires '/' !in n && '/' !in m && n != m
    requires (ra == "" || ra[0] == '/') && (rb == "" || rb[0] == '/')
    ensures Clash(n + ra, m + rb) <==> ra != "" && ExtendsBelowSlash(n, m)
  {
    var a, b := n + ra, m + rb;
    var i := Diff(n, m);
    assert i < |n| ==> a[i] == n[i] && n[i] in n;
    assert i < |m| ==> b[i] == m[i] && m[i] in m;
    assert i < |n| || i < |m|;
    DiffIs(a, b, i);
    assert n <= m <==> i == |n|;
  }

  lemma ClashPrefixed(p: string, a: string, b: string)
    ensures Clash(p + a, p + b) <==> Clash(a, b)
  {
    DiffPrefixed(p, a, b);
  }

  /** Two files under different entries of a directory clash exactly when the entries are a bad pair. */
  lemma ClashAcross(dir: string, d: Entry, s: Entry, a: string, b: string)
    requires NameOk(d.name) && NameOk(s.name) && d.name != s.name
    requires a in AllFiles(InParent(dir, d.name), d.node) && b in AllFiles(InParent(dir, s.name), s.node)
    ensures Clash(a, b) <==> BadPair(d, s)
  {
    FilesIffNotEmpty(InParent(dir, d.name), d.node);
    FilesIffNotEmpty(InParent(dir, s.name), s.node);
    FilesUnder(InParent(dir, d.name), d.node, a);
    FilesUnder(InParent(dir, s.name), s.node, b);
    var p := if dir == "" then "" else dir + "/";
    var ra := UnderSplit(dir, d.name, a);
    var rb := UnderSplit(dir, s.name, b);
    NamesClash(d.name, s.name, ra, rb);
    ClashPrefixed(p, d.name + ra, s.name + rb);
    if d.node.Dir? {
      StrictlyBelow(InParent(dir, d.name), d.node.entries, a);
    }
  }

  /** A file in a directory is not at the directory's own path. */
  lemma StrictlyBelow(path: string, es: seq<Entry>, k: string)
    requires path != "" && k in FilesOf(path, es)
    ensures |k| > |path|
  {
    var e := EntryOfFile(path, es, k);
    FilesUnder(InParent(path, e.name), e.node, k);
  }

  lemma NamesDiffer(es: seq<Entry>, d: Entry, s: Entry)
    requires EntriesOk(es) && d in es && s in es && d != s
    ensures d.name != s.name
  {
    if d == es[0] {
      assert s in es[1..];
      KeyLessTotal(d.name, s.name);
    } else if s == es[0] {
      assert d in es[1..];
      KeyLessTotal(s.name, d.name);
    } else {
      NamesDiffer(es[1..], d, s);
    }
  }

  lemma {:induction false} ClashToPair(path: string, t: Tree, a: string, b: string)
    requires WellFormed(t) && a in AllFiles(path, t) && b in AllFiles(path, t) && Clash(a, b)
    ensures HasBadPair(t)
    decreases t
  {
    if t.File? {
      ClashIsPathLess(a, b);
    } else {
      var d := EntryOfFile(path, t.entries, a);
      var s := EntryOfFile(path, t.entries, b);
      EntryFacts(t.entries, d);
      EntryFacts(t.entries, s);
      if d == s {
        ClashToPair(InParent(path, d.name), d.node, a, b);
        BadPairBelow(t.entries, d);
      } else {
        NamesDiffer(t.entries, d, s);
        ClashAcross(path, d, s, a, b);
      }
    }
  }

  lemma {:induction false} PairToClash(path: string, t: Tree) returns (a: string, b: string)
    requires WellFormed(t) && HasBadPair(t)
    ensures a in AllFiles(path, t) && b in AllFiles(path, t) && Clash(a, b)
    decreases t
  {
    if EntriesHaveBadPair(t.entries) {
      var e := BadPairAbove(t.entries);
      EntryFacts(t.entries, e);
      a, b := PairToClash(InParent(path, e.name), e.node);
      FileOfEntry(path, t.entries, e, a);
      FileOfEntry(path, t.entries, e, b);
    } else {
      var d, s :| d in t.entries && s in t.entries && BadPair(d, s);
      EntryFacts(t.entries, d);
      EntryFacts(t.entries, s);
      FilesIffNotEmpty(InParent(path, d.name), d.node);
      FilesIffNotEmpty(InParent(path, s.name), s.node);
      a, b := AllFiles(InParent(path, d.name), d.node)[0], AllFiles(InParent(path, s.name), s.node)[0];
      FileOfEntry(path, t.entries, d, a);
      FileOfEntry(path, t.entries, s, b);
      ClashAcross(path, d, s, a, b);
    }
  }

  /** The files of a tree are free of clashes exactly when no directory has a sibling whose name extends its own below the separator. */
  lemma NoClashIffNoBadPair(t: Tree)
    requires WellFormed(t)
    ensures NoClash(AllFiles("", t)) <==> !HasBadPair(t)
  {
    var files := AllFiles("", t);
    if HasBadPair(t) {
      var a, b := PairToClash("", t);
      var i :| 0 <= i < |files| && files[i] == a;
      var j :| 0 <= j < |files| && files[j] == b;
      assert Clash(files[i], files[j]);
    } else {
      forall i, j | 0 <= i < |files| && 0 <= j < |files|
        ensures !Clash(files[i], files[j])
      {
        if Clash(files[i], files[j]) {
          ClashToPair("", t, files[i], files[j]);
        }
      }
    }
  }

  /** On a tree without such siblings the local drain of any prefix is exact for every page size. */
  lemma NoBadPairDrainsExactly(root: Tree, prefix: string, limit: nat)
    requires WellFormed(root) && limit >= 1 && LocalMatching(root, prefix).Ok?
    requires Find(root, Comps(prefix)).Node? ==> !HasBadPair(Find(root, Comps(prefix)).tree)
    ensures Drain(LocalMatching(root, prefix).value, None, limit) == LocalMatching(root, prefix).value
    ensures Ascending(LocalMatching(root, prefix).value)
  {
    var keys := LocalMatching(root, prefix).value;
    NoBadPairNoClash(root, prefix);
    LocalMatchingInPathOrder(root, prefix);
    AscendingIffNoClash(keys);
    DrainExactIff(keys, limit);
  }

  lemma NoBadPairNoClash(root: Tree, prefix: string)
    requires WellFormed(root) && LocalMatching(root, prefix).Ok?
    requires Find(root, Comps(prefix)).Node? ==> !HasBadPair(Find(root, Comps(prefix)).tree)
    ensures NoClash(LocalMatching(root, prefix).value)
  {
    var keys := LocalMatching(root, prefix).value;
    if keys != [] {
      var t := Find(root, Comps(prefix)).tree;
      FoundIsWellFormed(root, Comps(prefix));
      LocalKeysMembers(AllFiles(prefix, t));
      forall i, j | 0 <= i < |keys| && 0 <= j < |keys|
        ensures !Clash(keys[i], keys[j])
      {
        assert keys[i] in keys && keys[j] in keys;
        if Clash(keys[i], keys[j]) {
          ClashToPair(prefix, t, keys[i], keys[j]);
        }
      }
    }
  }
}
