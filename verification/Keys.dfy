/** Validation of provider-neutral keys, and the provider prefix and local path maps built on it. */
module Keys {
  import opened Wrappers

  const INTERNAL_STORAGE_DIR := ".graphql-orm-storage"
  const OBJECT_METADATA_DIR := "object-metadata"
  const METADATA_SUFFIX := ".metadata.json"

  /** The components between separators; like Rust's `split`, never empty. */
  function Split(s: string): (parts: seq<string>)
    ensures |parts| >= 1
    ensures forall c | c in parts :: '/' !in c
  {
    if s == "" then [""] else
    var rest := Split(s[1..]);
    if s[0] == '/' then [""] + rest else [[s[0]] + rest[0]] + rest[1..]
  }

  function Join(parts: seq<string>): string
    requires parts != []
  {
    if |parts| == 1 then parts[0] else parts[0] + "/" + Join(parts[1..])
  }

  /** Splitting is undone by joining; as no part holds a separator, that says what the parts are. */
  lemma {:induction false} JoinSplit(s: string)
    ensures Join(Split(s)) == s
  {
    if s != "" {
      var rest := Split(s[1..]);
      JoinSplit(s[1..]);
      if s[0] == '/' {
        assert Split(s)[1..] == rest;
      } else {
        assert Split(s)[1..] == rest[1..];
      }
    }
  }

  predicate SafeComponent(c: string) {
    c != "" && c != "." && c != ".."
  }

  /** `validate_blob_key` on Unix: the component checks after the first test then reject nothing more. */
  predicate ValidKey(key: string) {
    key != "" && '\\' !in key && '\0' !in key && forall c | c in Split(key) :: SafeComponent(c)
  }

  predicate ValidPrefix(prefix: string) {
    prefix == "" || ValidKey(prefix)
  }

  predicate ValidBucket(bucket: string) {
    ValidKey(bucket) && '/' !in bucket
  }

  lemma {:induction false} SplitConcat(a: string, b: string)
    ensures Split(a + "/" + b) == Split(a) + Split(b)
  {
    if a == "" {
      assert a + "/" + b == "/" + b;
      assert ("/" + b)[1..] == b;
    } else {
      assert (a + "/" + b)[1..] == a[1..] + "/" + b;
      SplitConcat(a[1..], b);
    }
  }

  lemma {:induction false} SplitSingle(c: string)
    requires '/' !in c
    ensures Split(c) == [c]
  {
    if c != "" {
      SplitSingle(c[1..]);
      assert c == [c[0]] + c[1..];
    }
  }

  /** Joining with the separator keeps validity both ways, which is what every prefix map rests on. */
  lemma ValidJoin(p: string, k: string)
    ensures ValidKey(p + "/" + k) <==> ValidKey(p) && ValidKey(k)
  {
    SplitConcat(p, k);
    var j := p + "/" + k;
    assert forall c :: c in Split(j) <==> c in Split(p) || c in Split(k);
    assert '\\' in j <==> '\\' in p || '\\' in k by { InJoin(p, k, '\\'); }
    assert '\0' in j <==> '\0' in p || '\0' in k by { InJoin(p, k, '\0'); }
    if ValidKey(j) {
      assert "" in Split("");
    }
  }

  lemma InJoin(p: string, k: string, c: char)
    requires c != '/'
    ensures c in p + "/" + k <==> c in p || c in k
  {
  }

  lemma ValidSingle(c: string)
    requires '/' !in c && '\\' !in c && '\0' !in c && SafeComponent(c)
    ensures ValidKey(c)
  {
    SplitSingle(c);
  }

  lemma EdgeSlashInvalid(key: string)
    requires key != "" && (key[0] == '/' || key[|key| - 1] == '/')
    ensures !ValidKey(key)
  {
    if key[0] == '/' {
      assert Split(key)[0] == "";
    } else {
      var front := key[..|key| - 1];
      assert key == front + "/" + "";
      SplitConcat(front, "");
      assert Split(key)[|Split(front)|] == "";
    }
    assert "" in Split(key);
  }

  /** Neither end of a valid key is a separator. */
  lemma ValidEnds(key: string)
    requires ValidKey(key)
    ensures key[0] != '/' && key[|key| - 1] != '/'
  {
    if key[0] == '/' || key[|key| - 1] == '/' {
      EdgeSlashInvalid(key);
    }
  }

  /** `trim_matches('/')`. */
  function TrimSlashes(s: string): (t: string)
    ensures t == "" || (t[0] != '/' && t[|t| - 1] != '/')
  {
    if s == "" then ""
    else if s[0] == '/' then TrimSlashes(s[1..])
    else if s[|s| - 1] == '/' then TrimSlashes(s[..|s| - 1])
    else s
  }

  predicate OnlySlashes(s: string) {
    forall c | c in s :: c == '/'
  }

  /** Trimming takes slashes from both ends and nothing else; that none is left at an end makes the rest unique. */
  lemma {:induction false} TrimmedSlashes(s: string) returns (front: string, back: string)
    ensures s == front + TrimSlashes(s) + back && OnlySlashes(front) && OnlySlashes(back)
    decreases |s|
  {
    front, back := "", "";
    if s == "" {
    } else if s[0] == '/' {
      front, back := TrimmedSlashes(s[1..]);
      front := "/" + front;
    } else if s[|s| - 1] == '/' {
      front, back := TrimmedSlashes(s[..|s| - 1]);
      back := back + "/";
    }
  }

  /** `str::strip_prefix`. */
  function StripPrefix(s: string, p: string): Option<string> {
    if p <= s then Some(s[|p|..]) else None
  }

  /** S3 `provider_key`. */
  function ProviderKey(keyPrefix: Option<string>, key: string): Result<string> {
    if !ValidKey(key) then Err(InvalidStorageKey)
    else if keyPrefix.None? || TrimSlashes(keyPrefix.value) == "" then Ok(key)
    else if !ValidKey(TrimSlashes(keyPrefix.value)) then Err(InvalidStorageKey)
    else Ok(TrimSlashes(keyPrefix.value) + "/" + key)
  }

  /** S3 `strip_provider_prefix`. */
  function StripProviderPrefix(keyPrefix: Option<string>, providerKey: string): string {
    if keyPrefix.None? then providerKey else
    match StripPrefix(providerKey, TrimSlashes(keyPrefix.value))
    case None => providerKey
    case Some(rest) =>
      match StripPrefix(rest, "/")
      case None => providerKey
      case Some(key) => key
  }

  /** S3: every accepted key maps to a valid key that strips back to it, so the map is injective. */
  lemma ProviderKeyRoundTrip(keyPrefix: Option<string>, key: string)
    ensures var r := ProviderKey(keyPrefix, key);
            (r.Ok? <==> ValidKey(key) && (keyPrefix.Some? ==> ValidPrefix(TrimSlashes(keyPrefix.value))))
            && (r.Ok? ==> ValidKey(r.value) && StripProviderPrefix(keyPrefix, r.value) == key)
  {
    var r := ProviderKey(keyPrefix, key);
    if r.Ok? && keyPrefix.Some? {
      var p := TrimSlashes(keyPrefix.value);
      if p == "" {
        ValidEnds(key);
        assert key[|p|..] == key;
      } else {
        ValidJoin(p, key);
        assert (p + "/" + key)[|p|..] == "/" + key;
        assert p <= p + "/" + key;
        assert ("/" + key)[1..] == key;
      }
    }
  }

  lemma ProviderKeyInjective(keyPrefix: Option<string>, a: string, b: string)
    requires ProviderKey(keyPrefix, a).Ok? && ProviderKey(keyPrefix, b).Ok?
    requires ProviderKey(keyPrefix, a) == ProviderKey(keyPrefix, b)
    ensures a == b
  {
    ProviderKeyRoundTrip(keyPrefix, a);
    ProviderKeyRoundTrip(keyPrefix, b);
  }

  /** The prefix text that `provider_key` puts before a key. */
  function Trimmed(keyPrefix: Option<string>): string {
    if keyPrefix.None? then "" else TrimSlashes(keyPrefix.value)
  }

  /** One prefix inside another; either may be empty. */
  function Nested(outer: string, inner: string): string {
    if outer == "" then inner else if inner == "" then outer else outer + "/" + inner
  }

  lemma NestedTrimmed(p: Option<string>, q: Option<string>)
    ensures TrimSlashes(Nested(Trimmed(p), Trimmed(q))) == Nested(Trimmed(p), Trimmed(q))
  {
    var o, i := Trimmed(p), Trimmed(q);
    if o != "" && i != "" {
      var n := o + "/" + i;
      assert n[0] == o[0] && n[|n| - 1] == i[|i| - 1];
    }
  }

  /**
    Nested prefixes compose: mapping under q and then under p is mapping under the one inside the other,
    refusals included. Prefixes are as configured, with or without slashes at their ends.
   */
  lemma ProviderKeyNested(p: Option<string>, q: Option<string>, key: string)
    ensures var inner := ProviderKey(q, key);
            (if inner.Ok? then ProviderKey(p, inner.value) else inner) == ProviderKey(Some(Nested(Trimmed(p), Trimmed(q))), key)
  {
    var o, i := Trimmed(p), Trimmed(q);
    NestedTrimmed(p, q);
    if o != "" && i != "" {
      ValidJoin(o, i);
    }
    if i != "" {
      ValidJoin(i, key);
      assert (o + "/" + i) + "/" + key == o + "/" + (i + "/" + key);
    }
  }

  /** SMB `mapped_key`; the configured prefix is validated by `SmbStorageConfig::validate`. */
  function MappedKey(root: Option<string>, key: string): Result<string> {
    if !ValidKey(key) then Err(InvalidStorageKey)
    else if root.None? then Ok(key)
    else Ok(root.value + "/" + key)
  }

  /** The key that `collect_keys` reports for a path below the SMB root prefix. */
  function ListedKey(root: Option<string>, child: string): string {
    if root.None? then child else
    match StripPrefix(child, root.value)
    case None => child
    case Some(rest) =>
      match StripPrefix(rest, "/")
      case None => child
      case Some(key) => key
  }

  lemma MappedKeyRoundTrip(root: Option<string>, key: string)
    requires root.Some? ==> ValidKey(root.value)
    requires ValidKey(key)
    ensures var r := MappedKey(root, key);
            r.Ok? && ValidKey(r.value) && ListedKey(root, r.value) == key
  {
    if root.Some? {
      var p := root.value;
      ValidJoin(p, key);
      assert (p + "/" + key)[|p|..] == "/" + key;
      assert p <= p + "/" + key;
      assert ("/" + key)[1..] == key;
    }
  }

  // ---- Local paths, relative to the storage root ----

  function ObjectPath(bucket: string, key: string): Result<string> {
    if ValidBucket(bucket) && ValidKey(key) then Ok(bucket + "/" + key) else Err(InvalidStorageKey)
  }

  /** The suffix goes on the file name, so on the end of the path. */
  function ObjectMetadataPath(bucket: string, key: string): Result<string> {
    if ValidBucket(bucket) && ValidKey(key)
    then Ok(INTERNAL_STORAGE_DIR + "/" + OBJECT_METADATA_DIR + "/" + bucket + "/" + key + METADATA_SUFFIX)
    else Err(InvalidStorageKey)
  }

  lemma {:induction false} FirstSlash(b1: string, k1: string, b2: string, k2: string)
    requires '/' !in b1 && '/' !in b2
    requires b1 + "/" + k1 == b2 + "/" + k2
    ensures b1 == b2 && k1 == k2
  {
    var s, t := b1 + "/" + k1, b2 + "/" + k2;
    assert s[0] == t[0];
    if b1 != "" && b2 != "" {
      assert s[1..] == b1[1..] + "/" + k1;
      assert t[1..] == b2[1..] + "/" + k2;
      FirstSlash(b1[1..], k1, b2[1..], k2);
      assert b1 == [s[0]] + b1[1..];
      assert b2 == [t[0]] + b2[1..];
    } else {
      assert k1 == s[1..] && k2 == t[1..];
    }
  }

  lemma ObjectPathsInjective(b1: string, k1: string, b2: string, k2: string)
    requires ObjectPath(b1, k1).Ok? && ObjectPath(b2, k2).Ok?
    ensures ObjectPath(b1, k1) == ObjectPath(b2, k2) <==> b1 == b2 && k1 == k2
    ensures ObjectMetadataPath(b1, k1) == ObjectMetadataPath(b2, k2) <==> b1 == b2 && k1 == k2
  {
    if ObjectPath(b1, k1) == ObjectPath(b2, k2) {
      FirstSlash(b1, k1, b2, k2);
    }
    if ObjectMetadataPath(b1, k1) == ObjectMetadataPath(b2, k2) {
      var front := INTERNAL_STORAGE_DIR + "/" + OBJECT_METADATA_DIR + "/";
      var p1, p2 := ObjectMetadataPath(b1, k1).value, ObjectMetadataPath(b2, k2).value;
      assert p1 == front + (b1 + "/" + k1) + METADATA_SUFFIX;
      assert p2 == front + (b2 + "/" + k2) + METADATA_SUFFIX;
      assert b1 + "/" + k1 == p1[|front|..|p1| - |METADATA_SUFFIX|] == b2 + "/" + k2;
      FirstSlash(b1, k1, b2, k2);
    }
  }

  /** A data path is a sidecar path only in the internal directory used as a bucket, and then for exactly these keys. */
  lemma DataMeetsSidecar(b1: string, k1: string, b2: string, k2: string)
    requires ObjectPath(b1, k1).Ok? && ObjectMetadataPath(b2, k2).Ok?
    ensures ObjectPath(b1, k1) == ObjectMetadataPath(b2, k2) <==>
            b1 == INTERNAL_STORAGE_DIR && k1 == OBJECT_METADATA_DIR + "/" + b2 + "/" + k2 + METADATA_SUFFIX
  {
    var rest := OBJECT_METADATA_DIR + "/" + b2 + "/" + k2 + METADATA_SUFFIX;
    assert ObjectMetadataPath(b2, k2).value == INTERNAL_STORAGE_DIR + "/" + rest;
    if ObjectPath(b1, k1) == ObjectMetadataPath(b2, k2) {
      FirstSlash(b1, k1, INTERNAL_STORAGE_DIR, rest);
    }
  }
}
