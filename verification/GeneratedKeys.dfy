/** The keys that the storage service generates, and what listing them gives. */
module GeneratedKeys {
  import opened Wrappers
  import opened KeyOrder
  import opened Keys
  import opened TempNames
  import opened Trees
  import opened Paging
  import opened Listing
  import opened Draining
  import opened PrefixListing

  datatype StorageNamespace = Originals | RecycleBin | Thumbnails | Derivatives | Exports | Temp {
    function AsStr(): string {
      match this
      case Originals => "originals"
      case RecycleBin => "recycle_bin"
      case Thumbnails => "thumbnails"
      case Derivatives => "derivatives"
      case Exports => "exports"
      case Temp => "temp"
    }
  }

  /** Each of the 26 capital letters becomes the small one, 32 places on; every other character stays. */
  function ToAsciiLowercase(s: string): (t: string)
    ensures |t| == |s|
    ensures forall i | 0 <= i < |s| :: t[i] as int == s[i] as int + if 'A' <= s[i] <= 'Z' then 32 else 0
  {
    seq(|s|, i requires 0 <= i < |s| => if 'A' <= s[i] <= 'Z' then s[i] + ('a' - 'A') else s[i])
  }

  /** `build_storage_key`. */
  function BuildStorageKey(namespace: StorageNamespace, id: Uuid, extension: Option<string>): string {
    var text := Text(id);
    var fileName := if extension.Some? && extension.value != "" then text + "." + ToAsciiLowercase(extension.value) else text;
    namespace.AsStr() + "/" + text[..2] + "/" + text[2..4] + "/" + fileName
  }

  /** `char::is_whitespace`: the White_Space property. */
  predicate IsWhitespace(c: char) {
    var n := c as int;
    0x9 <= n <= 0xD || n == 0x20 || n == 0x85 || n == 0xA0 || n == 0x1680 || 0x2000 <= n <= 0x200A
    || n == 0x2028 || n == 0x2029 || n == 0x202F || n == 0x205F || n == 0x3000
  }

  function Trim(s: string): (t: string)
    ensures forall c | c in t :: c in s
  {
    if s == "" then ""
    else if IsWhitespace(s[0]) then Trim(s[1..])
    else if IsWhitespace(s[|s| - 1]) then Trim(s[..|s| - 1])
    else s
  }

  predicate OnlyWhitespace(s: string) {
    forall c | c in s :: IsWhitespace(c)
  }

  predicate TrimmedEnds(s: string) {
    s == "" || (!IsWhitespace(s[0]) && !IsWhitespace(s[|s| - 1]))
  }

  /** Trimming takes whitespace from both ends and nothing else. */
  lemma {:induction false} TrimmedWhitespace(s: string) returns (front: string, back: string)
    ensures s == front + Trim(s) + back && OnlyWhitespace(front) && OnlyWhitespace(back) && TrimmedEnds(Trim(s))
    decreases |s|
  {
    front, back := "", "";
    if s == "" {
    } else if IsWhitespace(s[0]) {
      var rest;
      rest, back := TrimmedWhitespace(s[1..]);
      front := [s[0]] + rest;
      assert s == [s[0]] + (rest + Trim(s) + back) == front + Trim(s) + back;
    } else if IsWhitespace(s[|s| - 1]) {
      var rest;
      front, rest := TrimmedWhitespace(s[..|s| - 1]);
      back := rest + [s[|s| - 1]];
      assert s == (front + Trim(s) + rest) + [s[|s| - 1]] == front + Trim(s) + back;
    }
  }

  /** `file_extension`. */
  function FileExtension(fileName: string): Option<string> {
    match RSplitOnce(fileName, '.')
    case None => None
    case Some((_, last)) =>
      var candidate := Trim(last);
      if candidate == "" || '/' in candidate || '\\' in candidate || '\0' in candidate then None else Some(candidate)
  }

  /** What follows the last dot of the name, without whitespace around it. */
  predicate LastSegment(name: string, stem: string, front: string, e: string, back: string) {
    && name == stem + "." + (front + e + back) && '.' !in front + e + back
    && OnlyWhitespace(front) && OnlyWhitespace(back) && TrimmedEnds(e)
  }

  lemma {:induction false} TrimIs(front: string, e: string, back: string)
    requires OnlyWhitespace(front) && OnlyWhitespace(back) && TrimmedEnds(e)
    ensures Trim(front + e + back) == e
    decreases |front|, |back|
  {
    var s := front + e + back;
    if front != "" {
      assert s[1..] == front[1..] + e + back;
      TrimIs(front[1..], e, back);
    } else if back != "" && e != "" {
      assert s[0] == e[0] && s[..|s| - 1] == front + e + back[..|back| - 1];
      TrimIs(front, e, back[..|back| - 1]);
    } else if back != "" {
      assert s == back && s[1..] == "" + "" + back[1..];
      TrimIs("", "", back[1..]);
    } else {
      assert s == e;
    }
  }

  /** An extension is what follows the last dot, trimmed, if it is not empty and free of separators and NUL. */
  lemma FileExtensionIff(name: string, e: string)
    ensures FileExtension(name) == Some(e) <==>
            e != "" && '/' !in e && '\\' !in e && '\0' !in e && exists stem, front, back :: LastSegment(name, stem, front, e, back)
  {
    if FileExtension(name) == Some(e) {
      var (stem, last) := RSplitOnce(name, '.').value;
      var front, back := TrimmedWhitespace(last);
      assert LastSegment(name, stem, front, e, back);
    }
    if stem, front, back :| LastSegment(name, stem, front, e, back) {
      RSplitUnique(stem, '.', front + e + back);
      assert name == stem + ['.'] + (front + e + back);
      TrimIs(front, e, back);
    }
  }

  /** An empty extension is none. */
  lemma EmptyExtension(namespace: StorageNamespace, id: Uuid)
    ensures BuildStorageKey(namespace, id, Some("")) == BuildStorageKey(namespace, id, None)
    ensures FileName(BuildStorageKey(namespace, id, None)) == Text(id)
  {
    TextChars(id);
    var front := namespace.AsStr() + "/" + Text(id)[..2] + "/" + Text(id)[2..4];
    assert BuildStorageKey(namespace, id, None) == front + ['/'] + Text(id);
    RSplitUnique(front, '/', Text(id));
  }

  /** The key of a stored object: `build_stream_stored_object` with the drawn UUID made a parameter. */
  function ObjectKey(namespace: StorageNamespace, id: Uuid, fileName: Option<string>): string {
    BuildStorageKey(namespace, id, if fileName.Some? then FileExtension(fileName.value) else None)
  }

  /** The last component of an object key. */
  function ObjectFileName(id: Uuid, fileName: Option<string>): string {
    if fileName.Some? && FileExtension(fileName.value).Some?
    then Text(id) + "." + ToAsciiLowercase(FileExtension(fileName.value).value)
    else Text(id)
  }

  predicate PlainChars(s: string) {
    '/' !in s && '\\' !in s && '\0' !in s
  }

  lemma LowercaseSafe(s: string)
    ensures PlainChars(s) ==> PlainChars(ToAsciiLowercase(s))
    ensures '.' !in s ==> '.' !in ToAsciiLowercase(s)
  {
  }

  lemma ExtensionSafe(fileName: string)
    requires FileExtension(fileName).Some?
    ensures var e := ToAsciiLowercase(FileExtension(fileName).value);
            e != "" && PlainChars(e) && '.' !in e
  {
    LowercaseSafe(FileExtension(fileName).value);
  }

  lemma ObjectFileNameSafe(id: Uuid, fileName: Option<string>)
    ensures var n := ObjectFileName(id, fileName);
            PlainChars(n) && |n| >= 36 && n[..36] == Text(id) && (n == Text(id) || n[36] == '.') && '.' !in Text(id)
  {
    TextChars(id);
    if fileName.Some? && FileExtension(fileName.value).Some? {
      ExtensionSafe(fileName.value);
    }
  }

  predicate Single(c: string) {
    PlainChars(c) && SafeComponent(c)
  }

  lemma FourParts(ns: string, a: string, b: string, n: string)
    requires Single(ns) && Single(a) && Single(b) && Single(n)
    ensures var key := ns + "/" + a + "/" + b + "/" + n;
            ValidKey(key) && Split(key) == [ns, a, b, n] && FileName(key) == n
  {
    var front := ns + "/" + a + "/" + b;
    assert ValidKey(front) && Split(front) == [ns, a, b] by {
      ValidSingle(ns);
      ValidSingle(a);
      ValidSingle(b);
      ValidJoin(ns, a);
      ValidJoin(ns + "/" + a, b);
      SplitConcat(ns, a);
      SplitConcat(ns + "/" + a, b);
      SplitSingle(ns);
      SplitSingle(a);
      SplitSingle(b);
    }
    ValidSingle(n);
    SplitSingle(n);
    ValidJoin(front, n);
    SplitConcat(front, n);
    RSplitUnique(front, '/', n);
  }

  lemma ShardsSafe(id: Uuid)
    ensures Single(Text(id)[..2]) && Single(Text(id)[2..4])
  {
    TextChars(id);
    assert forall c | c in Text(id)[..2] :: c in Text(id);
    assert forall c | c in Text(id)[2..4] :: c in Text(id);
    assert Text(id)[..2][0] in Text(id) && Text(id)[2..4][0] in Text(id);
  }

  /** An object key is valid and has the four components namespace, shard, shard, file name. */
  lemma ObjectKeyParts(namespace: StorageNamespace, id: Uuid, fileName: Option<string>)
    ensures var key, n := ObjectKey(namespace, id, fileName), ObjectFileName(id, fileName);
            && ValidKey(key)
            && key == namespace.AsStr() + "/" + Text(id)[..2] + "/" + Text(id)[2..4] + "/" + n
            && Split(key) == [namespace.AsStr(), Text(id)[..2], Text(id)[2..4], n]
            && FileName(key) == n
  {
    ShardsSafe(id);
    ObjectFileNameSafe(id, fileName);
    FourParts(namespace.AsStr(), Text(id)[..2], Text(id)[2..4], ObjectFileName(id, fileName));
  }

  function RecoverNamespace(key: string): Option<StorageNamespace> {
    var first := Split(key)[0];
    if first == "originals" then Some(Originals)
    else if first == "recycle_bin" then Some(RecycleBin)
    else if first == "thumbnails" then Some(Thumbnails)
    else if first == "derivatives" then Some(Derivatives)
    else if first == "exports" then Some(Exports)
    else if first == "temp" then Some(Temp)
    else None
  }

  function RecoverId(key: string): Option<Uuid> {
    var name := FileName(key);
    if |name| >= 36 then ParseUuid(name[..36]) else None
  }

  /** Namespace and UUID can be read back from the key, so distinct UUIDs give distinct keys. */
  lemma ObjectKeyRoundTrip(namespace: StorageNamespace, id: Uuid, fileName: Option<string>)
    ensures var key := ObjectKey(namespace, id, fileName);
            ValidKey(key) && RecoverNamespace(key) == Some(namespace) && RecoverId(key) == Some(id)
  {
    ObjectKeyParts(namespace, id, fileName);
    ObjectFileNameSafe(id, fileName);
    NamespaceOf(ObjectKey(namespace, id, fileName), namespace);
    IdOf(ObjectKey(namespace, id, fileName), id);
  }

  lemma NamespaceOf(key: string, namespace: StorageNamespace)
    requires Split(key)[0] == namespace.AsStr()
    ensures RecoverNamespace(key) == Some(namespace)
  {
  }

  lemma IdOf(key: string, id: Uuid)
    requires |FileName(key)| >= 36 && FileName(key)[..36] == Text(id)
    ensures RecoverId(key) == Some(id)
  {
    ParseText(id);
  }

  ghost predicate Generated(key: string) {
    exists namespace, id, fileName :: key == ObjectKey(namespace, id, fileName)
  }

  /** Object keys have their separators at the same places, so where two first differ neither has one. */
  lemma ShardsNeverClash(u: string, v: string, m: string, n: string)
    requires |u| == |v| == 4 && '/' !in u && '/' !in v && '/' !in m && '/' !in n
    ensures var r, s := u[..2] + "/" + u[2..] + "/" + m, v[..2] + "/" + v[2..] + "/" + n;
            !Clash(r, s)
  {
    var r, s := u[..2] + "/" + u[2..] + "/" + m, v[..2] + "/" + v[2..] + "/" + n;
    var i := Diff(r, s);
    assert r[2] == s[2] == r[5] == s[5] == '/';
    if i < |r| && i != 2 && i != 5 {
      assert r[i] == (if i < 2 then u[i] else if i < 5 then u[i - 1] else m[i - 6]);
    }
  }

  lemma NamespacesDiffer(a: StorageNamespace, b: StorageNamespace, r: string, s: string)
    requires a != b
    ensures !Clash(a.AsStr() + "/" + r, b.AsStr() + "/" + s)
  {
    var k, l := a.AsStr() + "/" + r, b.AsStr() + "/" + s;
    assert k[0] == a.AsStr()[0] && l[0] == b.AsStr()[0] && k[1] == a.AsStr()[1] && l[1] == b.AsStr()[1];
    DiffIs(k, l, if k[0] == l[0] then 1 else 0);
  }

  /** The parts of a generated key that matter for where its separators are. */
  lemma GeneratedShape(key: string) returns (ns: StorageNamespace, shards: string, name: string)
    requires Generated(key)
    ensures |shards| == 4 && '/' !in shards && '/' !in name
    ensures key == ns.AsStr() + "/" + (shards[..2] + "/" + shards[2..] + "/" + name)
  {
    var namespace, id, fileName :| key == ObjectKey(namespace, id, fileName);
    ns, shards, name := namespace, Text(id)[..4], ObjectFileName(id, fileName);
    ObjectKeyParts(namespace, id, fileName);
    ObjectFileNameSafe(id, fileName);
    ShardText(Text(id), ns.AsStr(), name) by { TextChars(id); }
  }

  lemma ShardText(text: string, ns: string, name: string)
    requires |text| == 36 && '/' !in text
    ensures '/' !in text[..4]
    ensures ns + "/" + text[..2] + "/" + text[2..4] + "/" + name ==
            ns + "/" + (text[..4][..2] + "/" + text[..4][2..] + "/" + name)
  {
    assert forall c | c in text[..4] :: c in text;
    assert text[..4][..2] == text[..2] && text[..4][2..] == text[2..4];
  }

  lemma ShapesNeverClash(a: StorageNamespace, s: string, m: string, b: StorageNamespace, t: string, n: string)
    requires |s| == |t| == 4 && '/' !in s && '/' !in t && '/' !in m && '/' !in n
    ensures !Clash(a.AsStr() + "/" + (s[..2] + "/" + s[2..] + "/" + m), b.AsStr() + "/" + (t[..2] + "/" + t[2..] + "/" + n))
  {
    var r, q := s[..2] + "/" + s[2..] + "/" + m, t[..2] + "/" + t[2..] + "/" + n;
    if a == b {
      ShardsNeverClash(s, t, m, n);
      DiffPrefixed(a.AsStr() + "/", r, q);
    } else {
      NamespacesDiffer(a, b, r, q);
    }
  }

  lemma GeneratedNeverClash(k: string, l: string)
    requires Generated(k) && Generated(l)
    ensures !Clash(k, l)
  {
    var a, s, m := GeneratedShape(k);
    var b, t, n := GeneratedShape(l);
    ShapesNeverClash(a, s, m, b, t, n);
  }

  /** A generated key is hidden from the local listing exactly when it ends in the temporary suffix, and never from the SMB one. */
  lemma GeneratedVisibility(key: string)
    requires Generated(key)
    ensures LocallyListed(key) <==> !EndsWith(key, TEMP_SUFFIX)
    ensures !IsSmbTempKey(key)
  {
    UploadingIsSuffix(key);
    GeneratedNotInternal(key);
    GeneratedNotSmbTemp(key);
  }

  lemma GeneratedNotInternal(key: string)
    requires Generated(key)
    ensures !Under(INTERNAL_STORAGE_DIR, key)
  {
    var ns, shards, name := GeneratedShape(key);
    assert key[0] == ns.AsStr()[0] != INTERNAL_STORAGE_DIR[0];
  }

  lemma GeneratedNotSmbTemp(key: string)
    requires Generated(key)
    ensures !IsSmbTempKey(key)
  {
    var ns, id, fileName :| key == ObjectKey(ns, id, fileName);
    ObjectKeyParts(ns, id, fileName);
    GeneratedNameNotTemp(id, fileName);
  }

  /** Only the extension can be the suffix, and what is before it is a bare UUID with no dot. */
  lemma GeneratedNameNotTemp(id: Uuid, fileName: Option<string>)
    ensures var n := ObjectFileName(id, fileName);
            EndsWith(n, TEMP_SUFFIX) ==> '.' !in n[..|n| - |TEMP_SUFFIX|]
  {
    var n := ObjectFileName(id, fileName);
    ObjectFileNameSafe(id, fileName);
    if EndsWith(n, TEMP_SUFFIX) {
      var front := n[..|n| - |TEMP_SUFFIX|];
      assert n == front + ['.'] + TEMP_SUFFIX[1..];
      RSplitUnique(front, '.', TEMP_SUFFIX[1..]);
      if fileName.Some? && FileExtension(fileName.value).Some? {
        ExtensionSafe(fileName.value);
        RSplitUnique(Text(id), '.', ToAsciiLowercase(FileExtension(fileName.value).value));
      }
    }
  }

  /** A name ends in a dot and a word exactly when the word is its extension. */
  lemma SuffixIsExtension(stem: string, extension: string, word: string)
    requires '.' !in extension && '.' !in word
    ensures EndsWith(stem + ['.'] + extension, ['.'] + word) <==> extension == word
  {
    var n := stem + ['.'] + extension;
    RSplitUnique(stem, '.', extension);
    if EndsWith(n, ['.'] + word) {
      var front := n[..|n| - |word| - 1];
      assert n == front + ['.'] + word;
      RSplitUnique(front, '.', word);
    }
    if extension == word {
      assert n[|n| - |word| - 1..] == ['.'] + word;
    }
  }

  lemma SuffixHasDot(n: string, word: string)
    requires EndsWith(n, ['.'] + word)
    ensures '.' in n
  {
    assert n[|n| - |word| - 1] == n[|n| - |word| - 1..][0] == '.';
  }

  /** `.uploading` without its dot. */
  const TEMP_WORD := "uploading"

  /** The caller's file name has the extension `uploading`, in any case. */
  predicate NamedUploading(fileName: Option<string>) {
    fileName.Some? && FileExtension(fileName.value).Some? && ToAsciiLowercase(FileExtension(fileName.value).value) == TEMP_WORD
  }

  lemma NameHiddenIff(id: Uuid, fileName: Option<string>)
    ensures EndsWith(ObjectFileName(id, fileName), TEMP_SUFFIX) <==> NamedUploading(fileName)
  {
    var n := ObjectFileName(id, fileName);
    ObjectFileNameSafe(id, fileName);
    assert TEMP_SUFFIX == ['.'] + TEMP_WORD;
    if fileName.Some? && FileExtension(fileName.value).Some? {
      var extension := ToAsciiLowercase(FileExtension(fileName.value).value);
      ExtensionSafe(fileName.value);
      SuffixIsExtension(Text(id), extension, TEMP_WORD);
      assert n == Text(id) + ['.'] + extension;
    } else if EndsWith(n, TEMP_SUFFIX) {
      SuffixHasDot(n, TEMP_WORD);
    }
  }

  lemma ListedByName(key: string, name: string)
    requires FileName(key) == name && !Under(INTERNAL_STORAGE_DIR, key)
    ensures LocallyListed(key) <==> !EndsWith(name, TEMP_SUFFIX)
  {
  }

  /**
    Which generated keys are hidden, in terms of the file name a caller gives: those whose extension is
    `uploading` in any case. The sweep may remove what it hides.
   */
  lemma GeneratedHiddenIff(namespace: StorageNamespace, id: Uuid, fileName: Option<string>)
    ensures !LocallyListed(ObjectKey(namespace, id, fileName)) <==> NamedUploading(fileName)
  {
    var key := ObjectKey(namespace, id, fileName);
    ObjectKeyParts(namespace, id, fileName);
    assert Generated(key);
    GeneratedNotInternal(key);
    NameHiddenIff(id, fileName);
    ListedByName(key, ObjectFileName(id, fileName));
  }

  lemma PlainWord()
    ensures Trim(TEMP_WORD) == TEMP_WORD && ToAsciiLowercase(TEMP_WORD) == TEMP_WORD && PlainChars(TEMP_WORD) && '.' !in TEMP_WORD
  {
  }

  /** A file uploaded as `clip.uploading` is stored under a key that no local listing shows. */
  lemma UploadingFileIsHidden(namespace: StorageNamespace, id: Uuid)
    ensures !LocallyListed(ObjectKey(namespace, id, Some("clip" + ['.'] + TEMP_WORD)))
  {
    var fileName := "clip" + ['.'] + TEMP_WORD;
    PlainWord();
    RSplitUnique("clip", '.', TEMP_WORD);
    assert FileExtension(fileName) == Some(TEMP_WORD);
    GeneratedHiddenIff(namespace, id, Some(fileName));
  }

  // ---- Both stores ----

  /** Free of clashes because generated. */
  lemma GeneratedFree(keys: seq<string>)
    requires forall k | k in keys :: Generated(k)
    ensures NoClash(keys)
  {
    forall i, j | 0 <= i < |keys| && 0 <= j < |keys|
      ensures !Clash(keys[i], keys[j])
    {
      assert keys[i] in keys && keys[j] in keys;
      GeneratedNeverClash(keys[i], keys[j]);
    }
  }

  /** The local store, under any prefix and with any page size. */
  lemma LocalSide(root: Tree, prefix: string, limit: nat)
    requires WellFormed(root) && limit >= 1 && LocalMatching(root, prefix).Ok?
    requires forall k | k in AllFiles("", root) :: Generated(k)
    ensures var keys := LocalMatching(root, prefix).value;
            && Ascending(keys) && Drain(keys, None, limit) == keys
            && forall k :: k in keys <==> k in AllFiles("", root) && Below(prefix, k) && !EndsWith(k, TEMP_SUFFIX)
  {
    var keys := LocalMatching(root, prefix).value;
    LocalPrefixMembers(root, prefix);
    GeneratedFree(keys);
    LocalMatchingInPathOrder(root, prefix);
    AscendingIffNoClash(keys);
    DrainExactIff(keys, limit);
    forall k
      ensures k in keys <==> k in AllFiles("", root) && Below(prefix, k) && !EndsWith(k, TEMP_SUFFIX)
    {
      if k in AllFiles("", root) {
        GeneratedVisibility(k);
      }
    }
  }

  /** The share holds, under its root prefix, a file for each of the keys and no other. */
  ghost predicate Holds(share: Tree, root: Option<string>, keys: seq<string>) {
    forall f :: f in SmbFiles(share, root) <==> exists k | k in keys :: Ok(f) == MappedKey(root, k)
  }

  lemma FileNameUnder(p: string, key: string)
    requires ValidKey(key) && p != ""
    ensures FileName(p + "/" + key) == FileName(key)
  {
    KeyParts(key);
    var parent, name := ParentOf(key), FileName(key);
    var above := if parent == "" then p else p + "/" + parent;
    assert p + "/" + key == InParent(above, name);
    FileNameOf(above, name);
  }

  lemma SameNameSameTemp(a: string, b: string)
    requires FileName(a) == FileName(b)
    ensures IsSmbTempKey(a) <==> IsSmbTempKey(b)
  {
  }

  /** No generated key is temporary for SMB, below its root prefix either, and the listing recovers it. */
  lemma MappedNotTemp(root: Option<string>, key: string)
    requires Generated(key) && (root.Some? ==> ValidKey(root.value))
    ensures MappedKey(root, key).Ok? && !IsSmbTempKey(MappedKey(root, key).value) && ListedKey(root, MappedKey(root, key).value) == key
  {
    GeneratedValid(key);
    GeneratedNotSmbTemp(key);
    MappedKeyRoundTrip(root, key);
    if root.Some? {
      FileNameUnder(root.value, key);
      SameNameSameTemp(root.value + "/" + key, key);
    }
  }

  lemma GeneratedValid(key: string)
    requires Generated(key)
    ensures ValidKey(key)
  {
    var namespace, id, fileName :| key == ObjectKey(namespace, id, fileName);
    ObjectKeyParts(namespace, id, fileName);
  }

  /** The SMB store, with any root prefix, under any prefix and with any page size. */
  lemma SmbSide(share: Tree, root: Option<string>, keys: seq<string>, prefix: string, limit: nat)
    requires WellFormed(share) && (root.Some? ==> ValidKey(root.value)) && limit >= 1 && ValidPrefix(prefix)
    requires (forall k | k in keys :: Generated(k)) && Holds(share, root, keys)
    ensures var listed := SmbMatching(share, root, prefix).value;
            && Ascending(listed) && Drain(listed, None, limit) == listed
            && forall k :: k in listed <==> k in keys && prefix <= k
  {
    SmbDrainExact(share, root, prefix, limit);
    var listed := SmbMatching(share, root, prefix).value;
    forall k
      ensures k in listed <==> k in keys && prefix <= k
    {
      SmbLists(share, root, keys, k);
    }
  }

  lemma SmbLists(share: Tree, root: Option<string>, keys: seq<string>, k: string)
    requires (root.Some? ==> ValidKey(root.value)) && (forall k | k in keys :: Generated(k)) && Holds(share, root, keys)
    ensures (exists f | f in SmbFiles(share, root) :: !TempShape(FileName(f)) && k == ListedKey(root, f)) <==> k in keys
  {
    if k in keys {
      MappedNotTemp(root, k);
      var f := MappedKey(root, k).value;
      SmbTempKeyIff(f);
      assert f in SmbFiles(share, root);
    }
    if f :| f in SmbFiles(share, root) && !TempShape(FileName(f)) && k == ListedKey(root, f) {
      var l :| l in keys && Ok(f) == MappedKey(root, l);
      MappedNotTemp(root, l);
    }
  }

  lemma SidesAgree(all: seq<string>, here: seq<string>, there: seq<string>, prefix: string)
    requires forall k :: k in here <==> k in all && Below(prefix, k) && !EndsWith(k, TEMP_SUFFIX)
    requires forall k :: k in there <==> k in all && prefix <= k
    ensures forall k :: k in here <==> k in there && Below(prefix, k) && !EndsWith(k, TEMP_SUFFIX)
  {
    forall k
      ensures k in here <==> k in there && Below(prefix, k) && !EndsWith(k, TEMP_SUFFIX)
    {
      if Below(prefix, k) {
        BelowIsPrefix(prefix, k);
      }
    }
  }

  lemma BelowIsPrefix(prefix: string, k: string)
    requires Below(prefix, k)
    ensures prefix <= k
  {
  }

  /**
    On two stores that hold the same generated keys, for any prefix, page size and SMB root prefix: both
    drains are in byte order and complete. SMB returns every key that begins with the prefix text; the
    local store those among them at or below the prefix as a path that do not end in the temporary suffix.
   */
  lemma GeneratedStoresAgree(local: Tree, share: Tree, root: Option<string>, prefix: string, limit: nat)
    requires WellFormed(local) && WellFormed(share) && (root.Some? ==> ValidKey(root.value)) && limit >= 1
    requires (forall k | k in AllFiles("", local) :: Generated(k)) && Holds(share, root, AllFiles("", local))
    requires LocalMatching(local, prefix).Ok?
    ensures SmbMatching(share, root, prefix).Ok?
    ensures var here, there := Drain(LocalMatching(local, prefix).value, None, limit), Drain(SmbMatching(share, root, prefix).value, None, limit);
            && Ascending(here) && Ascending(there)
            && (forall k :: k in there <==> k in AllFiles("", local) && prefix <= k)
            && (forall k :: k in here <==> k in there && Below(prefix, k) && !EndsWith(k, TEMP_SUFFIX))
  {
    LocalSide(local, prefix, limit);
    SmbSide(share, root, AllFiles("", local), prefix, limit);
    SidesAgree(AllFiles("", local), LocalMatching(local, prefix).value, SmbMatching(share, root, prefix).value, prefix);
  }
}
