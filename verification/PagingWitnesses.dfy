/** The paging condition in terms of directory entries, and trees that show it is needed. */
module PagingWitnesses {
  import opened Wrappers
  import opened KeyOrder
  import opened Keys
  import opened TempNames
  import opened Trees
  import opened Paging
  import opened Listing

  /** The sibling s extends the directory name d with a next character below the separator. */
  predicate ExtendsBelowSlash(d: string, s: string) {
    d < s && s[|d|] < '/'
  }

  /** In one directory, a lies inside the entry d and b is or lies below the entry s, and s extends d below the separator. */
  ghost predicate SiblingsDisagree(a: string, b: string) {
    exists dir, d, s ::
      NameOk(d) && NameOk(s) && ExtendsBelowSlash(d, s) && InParent(dir, d) + "/" <= a && Under(InParent(dir, s), b)
  }

  lemma SiblingsClash(dir: string, d: string, s: string, a: string, b: string)
    requires NameOk(d) && NameOk(s) && ExtendsBelowSlash(d, s)
    requires InParent(dir, d) + "/" <= a && Under(InParent(dir, s), b)
    ensures Clash(a, b)
  {
    var n := |InParent(dir, d)|;
    assert InParent(dir, d) <= InParent(dir, s);
    assert InParent(dir, s)[n] == s[|d|];
    DiffIs(a, b, n);
  }

  /** The first component of a path, and what follows it. */
  lemma FirstComponent(path: string) returns (name: string, rest: string)
    requires Split(path)[0] != ""
    ensures path == name + rest && name == Split(path)[0] && '/' !in name && (rest == "" || rest[0] == '/')
  {
    if path == "" || path[0] == '/' {
      name, rest := "", path;
    } else {
      if Split(path[1..])[0] == "" {
        name, rest := [path[0]], path[1..];
        assert path[1..] == "" || path[1] == '/' by { EmptyFirst(path[1..]); }
      } else {
        var n, r := FirstComponent(path[1..]);
        name, rest := [path[0]] + n, r;
      }
    }
  }

  lemma EmptyFirst(s: string)
    requires Split(s)[0] == ""
    ensures s == "" || s[0] == '/'
  {
  }

  /** Keys clash exactly when some directory has such a pair of entries over them. */
  lemma ClashIffSiblings(a: string, b: string)
    requires ValidKey(a) && ValidKey(b)
    ensures Clash(a, b) <==> SiblingsDisagree(a, b)
  {
    if Clash(a, b) {
      var i := Diff(a, b);
      var p := a[..i];
      assert a == p + "/" + a[i + 1..];
      ValidJoin(p, a[i + 1..]);
      KeyParts(p);
      var dir, d := ParentOf(p), FileName(p);
      assert b == p + b[i..];
      var tail := SegmentOf(dir, d, b, i);
    }
    if dir, d, s :|
      NameOk(d) && NameOk(s) && ExtendsBelowSlash(d, s) && InParent(dir, d) + "/" <= a && Under(InParent(dir, s), b)
    {
      SiblingsClash(dir, d, s, a, b);
    }
  }

  /** The first component of a key that goes on from d without a separator. */
  lemma SegmentIn(d: string, rest: string) returns (s: string, more: string)
    requires ValidKey(rest) && NameOk(d) && d < rest && rest[|d|] != '/'
    ensures rest == s + more && NameOk(s) && d < s && (more == "" || more[0] == '/')
  {
    s, more := FirstComponent(rest);
    assert Split(rest)[0] in Split(rest);
    assert forall k | 0 <= k < |d| :: rest[k] == d[k];
    assert |s| > |d| by {
      assert |s| < |rest| ==> rest[|s|] == '/';
    }
    assert d == rest[..|d|] == s[..|d|];
  }

  /** The entry of `dir` over b, when b goes on from d with a character below the separator. */
  lemma SegmentOf(dir: string, d: string, b: string, i: nat) returns (s: string)
    requires ValidKey(b) && NameOk(d) && i < |b| && b[..i] == InParent(dir, d) && b[i] < '/'
    ensures NameOk(s) && ExtendsBelowSlash(d, s) && Under(InParent(dir, s), b)
  {
    var rest := d + b[i..];
    assert b == b[..i] + b[i..] == InParent(dir, rest);
    if dir != "" {
      ValidJoin(dir, rest);
    }
    var name, more := SegmentIn(d, rest);
    s := name;
    assert s[|d|] == rest[|d|] == b[i];
    assert b == InParent(dir, s) + more;
    assert more == "" || InParent(dir, s) + "/" <= b;
  }

  // ---- Witnesses ----

  const LOSING_TREE := Dir([Entry("a", Dir([Entry("x", File)])), Entry("a.txt", File)])
  const REPEATING_TREE := Dir([Entry("a", Dir([Entry("x", File)])), Entry("a.txt", File), Entry("b", File)])

  lemma WitnessOrder()
    ensures KeyLess("a.txt", "a/x") && KeyLess("a.txt", "b") && KeyLess("a/x", "b") && KeyLess("a", "a.txt") && KeyLess("a", "b")
    ensures !KeyLess("a/x", "a.txt") && !KeyLess("b", "a.txt") && !KeyLess("b", "a/x")
    ensures !KeyLess("a/x", "a/x") && !KeyLess("a.txt", "a.txt") && !KeyLess("b", "b")
    ensures Clash("a/x", "a.txt")
  {
    DiffIs("a.txt", "a/x", 1);
    DiffIs("a/x", "a.txt", 1);
    DiffIs("a.txt", "b", 0);
    DiffIs("b", "a.txt", 0);
    DiffIs("a/x", "b", 0);
    DiffIs("b", "a/x", 0);
    DiffIs("a", "a.txt", 1);
    DiffIs("a", "b", 0);
    KeyLessTotal("a/x", "a/x");
    KeyLessTotal("a.txt", "a.txt");
    KeyLessTotal("b", "b");
  }

  lemma ShortKeyListed(key: string)
    requires |key| < 10
    ensures LocallyListed(key)
  {
    UploadingIsSuffix(key);
  }

  lemma WithEntry(dir: string, e: Entry, es: seq<Entry>)
    requires EntriesOk(es) && NameOk(e.name) && WellFormed(e.node) && forall x | x in es :: KeyLess(e.name, x.name)
    ensures EntriesOk([e] + es)
    ensures FilesOf(dir, [e] + es) == AllFiles(InParent(dir, e.name), e.node) + FilesOf(dir, es)
  {
    assert ([e] + es)[1..] == es;
  }

  const SUB := Dir([Entry("x", File)])
  const TXT := Entry("a.txt", File)
  const B := Entry("b", File)

  lemma SubFiles()
    ensures WellFormed(SUB) && AllFiles("a", SUB) == ["a/x"]
  {
    WithEntry("a", Entry("x", File), []);
    assert SUB.entries == [Entry("x", File)] + [];
    assert InParent("a", "x") == "a/x";
  }

  lemma LosingFiles()
    ensures WellFormed(LOSING_TREE) && AllFiles("", LOSING_TREE) == ["a/x", "a.txt"]
  {
    WitnessOrder();
    SubFiles();
    WithEntry("", TXT, []);
    WithEntry("", Entry("a", SUB), [TXT] + []);
    assert LOSING_TREE.entries == [Entry("a", SUB)] + ([TXT] + []);
  }

  lemma LastFiles()
    ensures EntriesOk([TXT] + ([B] + [])) && FilesOf("", [TXT] + ([B] + [])) == ["a.txt", "b"]
  {
    WitnessOrder();
    WithEntry("", B, []);
    WithEntry("", TXT, [B] + []);
  }

  lemma RepeatingFiles()
    ensures WellFormed(REPEATING_TREE) && AllFiles("", REPEATING_TREE) == ["a/x", "a.txt", "b"]
  {
    WitnessOrder();
    SubFiles();
    LastFiles();
    WithEntry("", Entry("a", SUB), [TXT] + ([B] + []));
    assert REPEATING_TREE.entries == [Entry("a", SUB)] + ([TXT] + ([B] + []));
  }

  lemma WitnessKeys()
    ensures LocalMatching(LOSING_TREE, "") == Ok(["a/x", "a.txt"])
    ensures LocalMatching(REPEATING_TREE, "") == Ok(["a/x", "a.txt", "b"])
  {
    LosingFiles();
    RepeatingFiles();
    WholeRoot(LOSING_TREE);
    WholeRoot(REPEATING_TREE);
    AllListed(["a/x", "a.txt"]);
    AllListed(["a/x", "a.txt", "b"]);
  }

  lemma {:induction false} AllListed(keys: seq<string>)
    requires forall k | k in keys :: |k| < 10
    ensures LocalKeys(keys) == keys
  {
    if keys != [] {
      ShortKeyListed(keys[0]);
      AllListed(keys[1..]);
    }
  }

  /** A directory `a` beside a file `a.txt`: pages of one key never return `a.txt`. */
  lemma DrainLosesKey()
    ensures WellFormed(LOSING_TREE) && LocalMatching(LOSING_TREE, "") == Ok(["a/x", "a.txt"])
    ensures Drain(["a/x", "a.txt"], None, 1) == ["a/x"]
  {
    LosingFiles();
    WitnessKeys();
    WitnessOrder();
    var keys := ["a/x", "a.txt"];
    AfterAll(keys, None);
    AfterNone(keys, Some("a/x"));
    assert PageOf(keys, None, 1) == BlobListPage(["a/x"], Some("a/x"));
    assert PageOf(keys, Some("a/x"), 1) == BlobListPage([], None);
  }

  /** With a file `b` as well, pages of two keys return `a/x` twice. */
  lemma DrainRepeatsKey()
    ensures WellFormed(REPEATING_TREE) && LocalMatching(REPEATING_TREE, "") == Ok(["a/x", "a.txt", "b"])
    ensures Drain(["a/x", "a.txt", "b"], None, 2) == ["a/x", "a.txt", "a/x", "b"]
  {
    RepeatingFiles();
    WitnessKeys();
    TwoPages();
  }

  lemma TwoPages()
    ensures Drain(["a/x", "a.txt", "b"], None, 2) == ["a/x", "a.txt", "a/x", "b"]
  {
    SecondPage();
    var keys := ["a/x", "a.txt", "b"];
    AfterAll(keys, None);
    assert PageOf(keys, None, 2) == BlobListPage(["a/x", "a.txt"], Some("a.txt"));
  }

  lemma SecondPage()
    ensures PageOf(["a/x", "a.txt", "b"], Some("a.txt"), 2) == BlobListPage(["a/x", "b"], None)
  {
    WitnessOrder();
    var keys, token := ["a/x", "a.txt", "b"], Some("a.txt");
    assert keys == ["a/x"] + ["a.txt"] + ["b"];
    AfterConcat(["a/x"] + ["a.txt"], ["b"], token);
    AfterConcat(["a/x"], ["a.txt"], token);
    AfterAll(["a/x"], token);
    AfterNone(["a.txt"], token);
    AfterAll(["b"], token);
  }
}
