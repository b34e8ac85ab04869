/** What a file system makes of the paths built from keys: none of them leads out of the storage root. */
module Containment {
  import opened Wrappers
  import opened Keys
  import opened TempNames

  // ---- Paths as a file system follows them ----

  /** From a directory, given by the names on the way to it, over one component; the parent of the top is the top. */
  function Step(at: seq<string>, c: string): seq<string> {
    if c == "" || c == "." then at
    else if c == ".." then if at == [] then [] else at[..|at| - 1]
    else at + [c]
  }

  /** Where these components lead from a directory. */
  function Resolve(at: seq<string>, comps: seq<string>): seq<string> {
    if comps == [] then at else Step(Resolve(at, comps[..|comps| - 1]), comps[|comps| - 1])
  }

  /** Every beginning of the path leads down to just the names in it. */
  ghost predicate StaysBelow(at: seq<string>, comps: seq<string>) {
    forall i | 0 <= i <= |comps| :: Resolve(at, comps[..i]) == at + comps[..i]
  }

  lemma LastStep(at: seq<string>, comps: seq<string>, i: nat)
    requires i < |comps|
    ensures Resolve(at, comps[..i + 1]) == Step(Resolve(at, comps[..i]), comps[i])
  {
    assert comps[..i + 1][..i] == comps[..i];
  }

  lemma {:induction false} SafeResolves(at: seq<string>, comps: seq<string>, i: nat)
    requires i <= |comps| && forall c | c in comps :: SafeComponent(c)
    ensures Resolve(at, comps[..i]) == at + comps[..i]
  {
    if i == 0 {
      assert comps[..0] == [] && at + [] == at;
    } else {
      SafeResolves(at, comps, i - 1);
      LastStep(at, comps, i - 1);
      assert SafeComponent(comps[i - 1]);
      assert at + comps[..i] == (at + comps[..i - 1]) + [comps[i - 1]];
    }
  }

  /** A key is accepted exactly if it is plain text whose every beginning, taken as a path, leads to itself. */
  lemma ValidKeyIff(key: string)
    ensures ValidKey(key) <==> key != "" && '\\' !in key && '\0' !in key && StaysBelow([], Split(key))
  {
    var comps := Split(key);
    if ValidKey(key) {
      forall i | 0 <= i <= |comps|
        ensures Resolve([], comps[..i]) == [] + comps[..i]
      {
        SafeResolves([], comps, i);
      }
    }
    if StaysBelow([], comps) {
      forall c | c in comps
        ensures SafeComponent(c)
      {
        var i :| 0 <= i < |comps| && comps[i] == c;
        LastStep([], comps, i);
        assert Resolve([], comps[..i]) == [] + comps[..i] && Resolve([], comps[..i + 1]) == [] + comps[..i + 1];
      }
    }
  }

  /** Under any root, the path of an accepted key never leaves it, and ends at the key's own components below it. */
  lemma KeyStaysBelow(root: seq<string>, key: string)
    requires ValidKey(key)
    ensures StaysBelow(root, Split(key)) && Resolve(root, Split(key)) == root + Split(key)
  {
    var comps := Split(key);
    forall i | 0 <= i <= |comps|
      ensures Resolve(root, comps[..i]) == root + comps[..i]
    {
      SafeResolves(root, comps, i);
    }
    assert comps[..|comps|] == comps;
  }

  // ---- The paths that the stores build ----

  /** Text added to the last component. */
  function Suffixed(parts: seq<string>, t: string): seq<string>
    requires parts != []
  {
    parts[..|parts| - 1] + [parts[|parts| - 1] + t]
  }

  lemma SuffixedBehind(first: string, rest: seq<string>, t: string)
    requires rest != []
    ensures Suffixed([first] + rest, t) == [first] + Suffixed(rest, t)
  {
  }

  lemma SuffixedUnder(c: char, rest: seq<string>, t: string)
    requires rest != []
    ensures Suffixed([[c] + rest[0]] + rest[1..], t) == [[c] + Suffixed(rest, t)[0]] + Suffixed(rest, t)[1..]
  {
    if |rest| == 1 {
      assert ([c] + rest[0]) + t == [c] + (rest[0] + t);
    } else {
      SuffixedBehind(rest[0], rest[1..], t);
      SuffixedBehind([c] + rest[0], rest[1..], t);
      assert rest == [rest[0]] + rest[1..];
    }
  }

  /** Text without a separator, put behind a path, goes to its last component. */
  lemma {:induction false} SplitSuffixed(s: string, t: string)
    requires '/' !in t
    ensures Split(s + t) == Suffixed(Split(s), t)
  {
    if s == "" {
      SplitSingle(t);
      assert s + t == t && [""][..0] == [];
    } else {
      SplitSuffixed(s[1..], t);
      assert (s + t)[0] == s[0] && (s + t)[1..] == s[1..] + t;
      if s[0] == '/' {
        SuffixedBehind("", Split(s[1..]), t);
      } else {
        SuffixedUnder(s[0], Split(s[1..]), t);
      }
    }
  }

  /** A suffix of more than two plain characters makes no component unsafe. */
  lemma ValidSuffixed(key: string, suffix: string)
    requires ValidKey(key) && |suffix| > 2 && '/' !in suffix && '\\' !in suffix && '\0' !in suffix
    ensures ValidKey(key + suffix)
  {
    SplitSuffixed(key, suffix);
    var n := |Split(key)| - 1;
    forall c | c in Split(key + suffix)
      ensures SafeComponent(c)
    {
      if c != Split(key)[n] + suffix {
        assert c in Split(key)[..n];
        assert c in Split(key);
      }
    }
  }

  lemma InternalDirectories()
    ensures ValidKey(INTERNAL_STORAGE_DIR + "/" + OBJECT_METADATA_DIR)
  {
    ValidSingle(INTERNAL_STORAGE_DIR);
    ValidSingle(OBJECT_METADATA_DIR);
    ValidJoin(INTERNAL_STORAGE_DIR, OBJECT_METADATA_DIR);
  }

  lemma TempSuffixValid(key: string, u: Uuid)
    requires ValidKey(key)
    ensures ValidKey(LocalTempPath(key, u))
  {
    TextChars(u);
    var suffix := "." + Text(u) + TEMP_SUFFIX;
    ValidSuffixed(key, suffix);
    assert key + suffix == LocalTempPath(key, u);
  }

  lemma SidecarPathValid(bucket: string, key: string)
    requires ObjectMetadataPath(bucket, key).Ok?
    ensures ValidKey(ObjectMetadataPath(bucket, key).value)
  {
    var front := INTERNAL_STORAGE_DIR + "/" + OBJECT_METADATA_DIR;
    InternalDirectories();
    ValidJoin(front, bucket);
    ValidJoin(front + "/" + bucket, key);
    ValidSuffixed(front + "/" + bucket + "/" + key, METADATA_SUFFIX);
  }

  /**
    The data and sidecar paths of an object, and the temporary paths beside them, never leave the storage root,
    and exist exactly for a bucket of one safe component and an accepted key.
   */
  lemma ObjectPathsStayBelow(root: seq<string>, bucket: string, key: string, u: Uuid)
    ensures ObjectPath(bucket, key).Ok? <==> ValidKey(bucket) && Split(bucket) == [bucket] && ValidKey(key)
    ensures ObjectMetadataPath(bucket, key).Ok? <==> ObjectPath(bucket, key).Ok?
    ensures ObjectPath(bucket, key).Ok? ==>
              && ObjectPath(bucket, key).value == bucket + "/" + key
              && ObjectMetadataPath(bucket, key).value == ".graphql-orm-storage/object-metadata/" + bucket + "/" + key + ".metadata.json"
    ensures forall path | Ok(path) in {ObjectPath(bucket, key), ObjectMetadataPath(bucket, key)} ::
              && Resolve(root, Split(path)) == root + Split(path) && StaysBelow(root, Split(path))
              && StaysBelow(root, Split(LocalTempPath(path, u)))
  {
    assert INTERNAL_STORAGE_DIR + "/" + OBJECT_METADATA_DIR + "/" == ".graphql-orm-storage/object-metadata/";
    if '/' !in bucket {
      SplitSingle(bucket);
    } else {
      assert bucket in [bucket];
    }
    forall path | Ok(path) in {ObjectPath(bucket, key), ObjectMetadataPath(bucket, key)}
      ensures Resolve(root, Split(path)) == root + Split(path) && StaysBelow(root, Split(path))
      ensures StaysBelow(root, Split(LocalTempPath(path, u)))
    {
      if Ok(path) == ObjectPath(bucket, key) {
        ValidJoin(bucket, key);
      } else {
        SidecarPathValid(bucket, key);
      }
      KeyStaysBelow(root, path);
      TempSuffixValid(path, u);
      KeyStaysBelow(root, LocalTempPath(path, u));
    }
  }

  /** Under a prefix, S3 and SMB keys stay below it: they are the prefix's components and then the key's. */
  lemma ProviderKeysStayBelow(keyPrefix: Option<string>, key: string)
    requires ProviderKey(keyPrefix, key).Ok?
    ensures var path := ProviderKey(keyPrefix, key).value;
            && Split(path) == (if Trimmed(keyPrefix) == "" then [] else Split(Trimmed(keyPrefix))) + Split(key)
            && StaysBelow([], Split(path))
  {
    ProviderKeyRoundTrip(keyPrefix, key);
    if Trimmed(keyPrefix) != "" {
      SplitConcat(Trimmed(keyPrefix), key);
    }
    KeyStaysBelow([], ProviderKey(keyPrefix, key).value);
  }

  lemma MappedKeysStayBelow(root: Option<string>, key: string, u: Uuid)
    requires ValidKey(key) && (root.Some? ==> ValidKey(root.value))
    ensures MappedKey(root, key).Ok? && SmbTempKey(key, u).Ok? && MappedKey(root, SmbTempKey(key, u).value).Ok?
    ensures forall path | path in {MappedKey(root, key).value, MappedKey(root, SmbTempKey(key, u).value).value} ::
              && StaysBelow([], Split(path))
              && (if root.None? then [] else Split(root.value)) <= Split(path)
  {
    SmbTempKeyFacts(key, u);
    var temp := SmbTempKey(key, u).value;
    MappedKeyRoundTrip(root, key);
    MappedKeyRoundTrip(root, temp);
    if root.Some? {
      SplitConcat(root.value, key);
      SplitConcat(root.value, temp);
    }
    KeyStaysBelow([], MappedKey(root, key).value);
    KeyStaysBelow([], MappedKey(root, temp).value);
  }
}
