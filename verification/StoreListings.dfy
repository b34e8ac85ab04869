/** Which files of a tree the two stores list, said without their own filters. */
module StoreListings {
  import opened Wrappers
  import opened Keys
  import opened TempNames
  import opened Trees
  import opened Listing
  import opened PrefixListing
  import opened Draining

  /** The files of a tree are the paths that lead to a file. */
  lemma FileIff(root: Tree, f: string)
    requires WellFormed(root) && ValidKey(f)
    ensures f in AllFiles("", root) <==> Find(root, Comps(f)) == Node(File)
  {
    FilesBelow(root, f, f);
    if f in AllFiles("", root) {
      FileIsFound(root, f);
    }
  }

  /**
    The local store lists, under a prefix it does not refuse, exactly the files at or below that path that are
    neither in the internal directory nor end in `.uploading`.
   */
  lemma LocalListedIff(root: Tree, prefix: string, k: string)
    requires WellFormed(root) && LocalMatching(root, prefix).Ok?
    ensures k in LocalMatching(root, prefix).value <==>
            && k in AllFiles("", root) && (prefix == "" || k == prefix || prefix + "/" <= k)
            && k != INTERNAL_STORAGE_DIR && !(INTERNAL_STORAGE_DIR + "/" <= k) && !EndsWith(k, ".uploading")
  {
    LocalPrefixMembers(root, prefix);
    UploadingIsSuffix(k);
  }

  /** The path of a key below the root prefix. */
  function Rooted(root: Option<string>, key: string): string {
    if root.None? then key else root.value + "/" + key
  }

  lemma ListedRooted(root: Option<string>, f: string, k: string)
    requires root.Some? ==> root.value + "/" <= f
    ensures ListedKey(root, f) == k <==> f == Rooted(root, k)
  {
    if root.Some? {
      var p := root.value;
      assert f == p + "/" + f[|p| + 1..];
      assert f[|p|..] == "/" + f[|p| + 1..];
      assert (p + "/" + k)[|p| + 1..] == k;
    }
  }

  /** The files below the root prefix are the files of the share whose paths go on from it. */
  lemma SmbFilesAre(share: Tree, root: Option<string>, f: string)
    requires WellFormed(share) && share.Dir? && (root.Some? ==> ValidKey(root.value))
    ensures f in SmbFiles(share, root) <==> f in AllFiles("", share) && (root.Some? ==> root.value + "/" <= f)
  {
    if root.Some? {
      FilesBelow(share, root.value, f);
      SmbKeysDistinct(share, root);
    }
  }

  /**
    SMB lists, under a prefix it does not refuse, exactly the keys that begin with the prefix text and whose paths
    below the root prefix are files, unless the file name has the shape of a temporary one: a stem, a UUID and `.uploading`.
   */
  lemma SmbListedIff(share: Tree, root: Option<string>, prefix: string, k: string)
    requires WellFormed(share) && share.Dir? && (root.Some? ==> ValidKey(root.value)) && SmbMatching(share, root, prefix).Ok?
    ensures k in SmbMatching(share, root, prefix).value <==>
            prefix <= k && Rooted(root, k) in AllFiles("", share) && !TempShape(FileName(Rooted(root, k)))
  {
    SmbDrainExact(share, root, prefix, 1);
    forall f
      ensures f in SmbFiles(share, root) && k == ListedKey(root, f) <==> f in AllFiles("", share) && f == Rooted(root, k)
    {
      SmbFilesAre(share, root, f);
      RootedIsBelow(root, k);
      if root.Some? ==> root.value + "/" <= f {
        ListedRooted(root, f, k);
      }
    }
    if Rooted(root, k) in AllFiles("", share) {
      assert Rooted(root, k) in SmbFiles(share, root) && k == ListedKey(root, Rooted(root, k));
    }
  }

  lemma RootedIsBelow(root: Option<string>, k: string)
    ensures root.Some? ==> root.value + "/" <= Rooted(root, k)
  {
  }
}
