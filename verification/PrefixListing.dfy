/** A local prefix is a path: what is listed under it is what the whole listing has below that path. */
module PrefixListing {
  import opened Wrappers
  import opened KeyOrder
  import opened Keys
  import opened TempNames
  import opened Trees
  import opened Listing

  /** k is at or below the path, or the path is the root. */
  predicate Below(path: string, k: string) {
    path == "" || Under(path, k)
  }

  /** The files of a directory under one of its names are those of the entry of that name. */
  lemma {:induction false} FilesUnderName(dir: string, es: seq<Entry>, name: string, k: string)
    requires EntriesOk(es) && NameOk(name)
    ensures k in FilesOf(dir, es) && Under(InParent(dir, name), k) <==>
            ChildNode(es, name).Some? && k in AllFiles(InParent(dir, name), ChildNode(es, name).value)
  {
    if es != [] {
      var first := AllFiles(InParent(dir, es[0].name), es[0].node);
      FilesUnderName(dir, es[1..], name, k);
      if k in first {
        FilesUnder(InParent(dir, es[0].name), es[0].node, k);
        if es[0].name != name && Under(InParent(dir, name), k) {
          ApartFromSibling(dir, es[0].name, name, k);
        }
      }
      if es[0].name == name {
        NoNamesake(es[1..], name);
        if ChildNode(es, name).Some? && k in first {
          FilesUnder(InParent(dir, name), es[0].node, k);
        }
      }
    }
  }

  lemma NoNamesake(es: seq<Entry>, name: string)
    requires forall e | e in es :: KeyLess(name, e.name)
    ensures ChildNode(es, name) == None
  {
    if es != [] {
      assert es[0] in es;
      KeyLessTotal(name, es[0].name);
      NoNamesake(es[1..], name);
    }
  }

  /** No path is under two names of one directory. */
  lemma ApartFromSibling(dir: string, n: string, m: string, k: string)
    requires NameOk(n) && NameOk(m) && n != m && Under(InParent(dir, n), k)
    ensures !Under(InParent(dir, m), k)
  {
    if Under(InParent(dir, m), k) {
      KeyLessTotal(n, m);
      if KeyLess(n, m) {
        SiblingsInOrder(dir, n, m, k, k);
      } else {
        SiblingsInOrder(dir, m, n, k, k);
      }
      PathLessAsymmetric(k, k);
    }
  }

  /** Below something that is not a directory there is nothing. */
  lemma {:induction false} FindBeyond(t: Tree, comps: seq<string>, name: string)
    requires !(Find(t, comps).Node? && Find(t, comps).tree.Dir?)
    ensures !Find(t, comps + [name]).Node?
    decreases |comps|
  {
    if comps == [] {
      assert (comps + [name])[1..] == [];
    } else {
      assert (comps + [name])[1..] == comps[1..] + [name] && (comps + [name])[0] == comps[0];
      if t.Dir? && ChildNode(t.entries, comps[0]).Some? {
        FindBeyond(ChildNode(t.entries, comps[0]).value, comps[1..], name);
      }
    }
  }

  lemma UnderParent(prefix: string, k: string)
    requires ValidKey(prefix) && Under(prefix, k)
    ensures Below(ParentOf(prefix), k)
  {
    KeyParts(prefix);
    if ParentOf(prefix) != "" {
      assert ParentOf(prefix) + "/" <= prefix;
      assert prefix <= k;
    }
  }

  lemma NotUnderShorter(prefix: string, k: string)
    requires |k| < |prefix|
    ensures !Under(prefix, k)
  {
  }

  lemma ParentShorter(prefix: string)
    requires ValidKey(prefix)
    ensures |ParentOf(prefix)| < |prefix| && NameOk(FileName(prefix))
  {
    KeyParts(prefix);
  }

  /** What a lookup of the prefix says about the files of the tree below it. */
  ghost predicate SaysBelow(root: Tree, prefix: string, k: string) {
    k in AllFiles("", root) && Below(prefix, k) <==>
    Find(root, Comps(prefix)).Node? && k in AllFiles(prefix, Find(root, Comps(prefix)).tree)
  }

  /** The files of the node at a path are the tree's files below the path, and there are none where there is no node. */
  lemma {:induction false} FilesBelow(root: Tree, prefix: string, k: string)
    requires WellFormed(root) && ValidPrefix(prefix)
    ensures SaysBelow(root, prefix, k)
    decreases |prefix|
  {
    if prefix != "" {
      var parent, name := ParentOf(prefix), FileName(prefix);
      KeyParts(prefix);
      ParentShorter(prefix);
      CompsOfChild(parent, name);
      FilesBelow(root, parent, k);
      var found := Find(root, Comps(parent));
      if found.Node? && found.tree.Dir? {
        FilesBelowDirectory(root, prefix, k);
      } else {
        FindBeyond(root, Comps(parent), name);
        if k in AllFiles("", root) && Under(prefix, k) {
          UnderParent(prefix, k);
          NotUnderShorter(prefix, parent);
        }
      }
    }
  }

  lemma FilesBelowDirectory(root: Tree, prefix: string, k: string)
    requires WellFormed(root) && ValidKey(prefix) && SaysBelow(root, ParentOf(prefix), k)
    requires Find(root, Comps(ParentOf(prefix))).Node? && Find(root, Comps(ParentOf(prefix))).tree.Dir?
    requires InParent(ParentOf(prefix), FileName(prefix)) == prefix && NameOk(FileName(prefix))
    requires Comps(prefix) == Comps(ParentOf(prefix)) + [FileName(prefix)]
    ensures SaysBelow(root, prefix, k)
  {
    var parent, name := ParentOf(prefix), FileName(prefix);
    var es := Find(root, Comps(parent)).tree.entries;
    FoundIsWellFormed(root, Comps(parent));
    FindChild(root, Comps(parent), name);
    FilesUnderName(parent, es, name, k);
    if Under(prefix, k) {
      UnderParent(prefix, k);
    }
  }

  /** Listing under a prefix gives the keys of the whole listing below that path. */
  lemma LocalPrefixMembers(root: Tree, prefix: string)
    requires WellFormed(root) && LocalMatching(root, prefix).Ok?
    ensures forall k :: k in LocalMatching(root, prefix).value <==> k in AllFiles("", root) && Below(prefix, k) && LocallyListed(k)
  {
    forall k
      ensures k in LocalMatching(root, prefix).value <==> k in AllFiles("", root) && Below(prefix, k) && LocallyListed(k)
    {
      FilesBelow(root, prefix, k);
      if Under(INTERNAL_STORAGE_DIR, prefix) {
        if Under(prefix, k) {
          UnderTransitive(INTERNAL_STORAGE_DIR, prefix, k);
        }
      } else if Find(root, Comps(prefix)).Node? {
        LocalKeysMembers(AllFiles(prefix, Find(root, Comps(prefix)).tree));
      }
    }
  }

  // ---- When a prefix cannot be looked up ----

  /** The path of a file with something further behind it. */
  ghost predicate BelowAFile(root: Tree, prefix: string) {
    exists f :: f in AllFiles("", root) && f + "/" <= prefix
  }

  lemma {:induction false} FindThroughFile(t: Tree, comps: seq<string>, more: seq<string>)
    requires Find(t, comps) == Node(File) && more != []
    ensures Find(t, comps + more) == NotADirectory
    decreases |comps|
  {
    if comps == [] {
      assert comps + more == more;
    } else {
      assert (comps + more)[0] == comps[0] && (comps + more)[1..] == comps[1..] + more;
      FindThroughFile(ChildNode(t.entries, comps[0]).value, comps[1..], more);
    }
  }

  lemma {:induction false} FindPastMissing(t: Tree, comps: seq<string>, name: string)
    requires Find(t, comps).Missing?
    ensures Find(t, comps + [name]).Missing?
    decreases |comps|
  {
    assert (comps + [name])[0] == comps[0] && (comps + [name])[1..] == comps[1..] + [name];
    if ChildNode(t.entries, comps[0]).Some? {
      FindPastMissing(ChildNode(t.entries, comps[0]).value, comps[1..], name);
    }
  }

  /** The files listed of a directory lie strictly below its path. */
  lemma NotItself(dir: string, es: seq<Entry>)
    requires EntriesOk(es) && dir != ""
    ensures dir !in FilesOf(dir, es)
  {
    if dir in FilesOf(dir, es) {
      forall e | e in es
        ensures e.name != ""
      {
        EntryFacts(es, e);
      }
      var name := EntryOver(dir, es, dir);
      NotUnderShorter(InParent(dir, name), dir);
    }
  }

  /** The path of a file leads to it. */
  lemma FileIsFound(root: Tree, f: string)
    requires WellFormed(root) && ValidKey(f) && f in AllFiles("", root)
    ensures Find(root, Comps(f)) == Node(File)
  {
    FilesBelow(root, f, f);
    FoundIsWellFormed(root, Comps(f));
    var node := Find(root, Comps(f)).tree;
    if node.Dir? {
      NotItself(f, node.entries);
    }
  }

  lemma BelowFileFails(root: Tree, prefix: string, f: string)
    requires WellFormed(root) && root.Dir? && ValidKey(prefix) && f in AllFiles("", root) && f + "/" <= prefix
    ensures Find(root, Comps(prefix)) == NotADirectory
  {
    var rest := prefix[|f| + 1..];
    assert prefix == f + "/" + rest;
    ValidJoin(f, rest);
    SplitConcat(f, rest);
    FileIsFound(root, f);
    FindThroughFile(root, Comps(f), Split(rest));
  }

  lemma {:induction false} FailsBelowFile(root: Tree, prefix: string) returns (f: string)
    requires WellFormed(root) && root.Dir? && ValidKey(prefix) && Find(root, Comps(prefix)) == NotADirectory
    ensures f in AllFiles("", root) && f + "/" <= prefix
    decreases |prefix|
  {
    var parent, name := ParentOf(prefix), FileName(prefix);
    KeyParts(prefix);
    ParentShorter(prefix);
    CompsOfChild(parent, name);
    match Find(root, Comps(parent)) {
      case NotADirectory =>
        f := FailsBelowFile(root, parent);
      case Missing =>
        FindPastMissing(root, Comps(parent), name);
      case Node(t) =>
        if t.Dir? {
          FindChild(root, Comps(parent), name);
        }
        f := parent;
        FilesBelow(root, parent, parent);
    }
  }

  /** A local listing is refused with an I/O error exactly if the prefix is valid, public and lies below a file. */
  lemma LocalMatchingFailsIff(root: Tree, prefix: string)
    requires WellFormed(root) && root.Dir?
    ensures LocalMatching(root, prefix) == Err(InvalidStorageKey) <==> !ValidPrefix(prefix)
    ensures LocalMatching(root, prefix) == Err(Io) <==>
              ValidPrefix(prefix) && !Under(INTERNAL_STORAGE_DIR, prefix) && BelowAFile(root, prefix)
    ensures LocalMatching(root, prefix).Err? ==> LocalMatching(root, prefix).error in {InvalidStorageKey, Io}
  {
    if prefix != "" && ValidKey(prefix) {
      if f :| f in AllFiles("", root) && f + "/" <= prefix {
        BelowFileFails(root, prefix, f);
      }
      if Find(root, Comps(prefix)) == NotADirectory {
        var f := FailsBelowFile(root, prefix);
      }
    }
  }
}
