/** `list_objects`: the walk of a bucket's directory, with a sidecar looked up for every file it meets. */
module ObjectListing {
  import opened Wrappers
  import opened ByteStrings
  import opened FilterMaps
  import opened KeyOrder
  import opened Keys
  import opened TempNames
  import opened Trees
  import opened PrefixListing
  import opened ObjectAgreement

  /** The tree and the contents are of the same files. */
  ghost predicate Holds(root: Tree, files: Files) {
    forall p :: p in files <==> p in AllFiles("", root)
  }

  /** `get_object_metadata`. */
  function GetObjectMetadata(files: Files, bucket: string, key: string): Result<ObjectInfo> {
    match ObjectMetadataPath(bucket, key)
    case Err(e) => Err(e)
    case Ok(path) =>
      match At(files, path)
      case None => Err(MissingBlob)
      case Some(Sidecar(info)) => Ok(info)
      case Some(_) => Err(Provider)
  }

  /** `key_for_bucket_path`, for names without a backslash. */
  function KeyForBucketPath(bucket: string, path: string): Option<string> {
    if path == bucket then Some("") else StripPrefix(path, bucket + "/")
  }

  /** The key under which the walk reports a file, if it does: not a temporary file, below the prefix, and with a sidecar that parses. */
  function KeyOf(files: Files, bucket: string, prefix: string, path: string): Option<string> {
    if IsUploading(path) then None
    else match KeyForBucketPath(bucket, path)
      case None => None
      case Some(key) => if prefix <= key && GetObjectMetadata(files, bucket, key).Ok? then Some(key) else None
  }

  function ReportedKey(files: Files, bucket: string, prefix: string): string -> Option<string> {
    (path: string) => KeyOf(files, bucket, prefix, path)
  }

  /** What is reported of these keys. */
  function Infos(files: Files, bucket: string, keys: seq<string>): (infos: seq<ObjectInfo>)
    requires forall k | k in keys :: GetObjectMetadata(files, bucket, k).Ok?
    ensures |infos| == |keys|
  {
    seq(|keys|, i requires 0 <= i < |keys| => GetObjectMetadata(files, bucket, keys[i]).value)
  }

  // ---- Sorting ----

  function InsertInfo(info: ObjectInfo, infos: seq<ObjectInfo>): seq<ObjectInfo> {
    if infos == [] || !KeyLess(infos[0].key, info.key) then [info] + infos
    else [infos[0]] + InsertInfo(info, infos[1..])
  }

  /** The stable sort by key. */
  function SortInfos(infos: seq<ObjectInfo>): seq<ObjectInfo> {
    if infos == [] then [] else InsertInfo(infos[0], SortInfos(infos[1..]))
  }

  ghost predicate InKeyOrder(infos: seq<ObjectInfo>) {
    forall i, j :: 0 <= i < j < |infos| ==> !KeyLess(infos[j].key, infos[i].key)
  }

  lemma {:induction false} InsertKeeps(info: ObjectInfo, infos: seq<ObjectInfo>)
    ensures multiset(InsertInfo(info, infos)) == multiset(infos) + multiset{info}
  {
    if infos != [] && KeyLess(infos[0].key, info.key) {
      InsertKeeps(info, infos[1..]);
      assert infos == [infos[0]] + infos[1..];
    }
  }

  lemma NotLessTransitive(a: string, b: string, c: string)
    requires !KeyLess(b, a) && !KeyLess(c, b)
    ensures !KeyLess(c, a)
  {
    KeyLessTotal(a, b);
    KeyLessTotal(b, c);
    KeyLessTotal(a, c);
    if KeyLess(a, b) && KeyLess(b, c) {
      KeyLessTransitive(a, b, c);
    }
  }

  lemma FirstInFront(first: ObjectInfo, rest: seq<ObjectInfo>)
    requires InKeyOrder(rest) && forall x | x in rest :: !KeyLess(x.key, first.key)
    ensures InKeyOrder([first] + rest)
  {
  }

  lemma {:induction false} InsertInOrder(info: ObjectInfo, infos: seq<ObjectInfo>)
    requires InKeyOrder(infos)
    ensures InKeyOrder(InsertInfo(info, infos))
  {
    if infos == [] {
    } else if !KeyLess(infos[0].key, info.key) {
      forall x | x in infos
        ensures !KeyLess(x.key, info.key)
      {
        KeyLessTotal(infos[0].key, infos[0].key);
        NotLessTransitive(info.key, infos[0].key, x.key);
      }
      FirstInFront(info, infos);
    } else {
      InsertInOrder(info, infos[1..]);
      InsertKeeps(info, infos[1..]);
      KeyLessTotal(infos[0].key, info.key);
      forall x | x in InsertInfo(info, infos[1..])
        ensures !KeyLess(x.key, infos[0].key)
      {
        assert x in multiset(InsertInfo(info, infos[1..]));
        assert x == info || x in infos[1..];
      }
      FirstInFront(infos[0], InsertInfo(info, infos[1..]));
    }
  }

  lemma {:induction false} SortedInfos(infos: seq<ObjectInfo>)
    ensures multiset(SortInfos(infos)) == multiset(infos) && InKeyOrder(SortInfos(infos))
  {
    if infos != [] {
      SortedInfos(infos[1..]);
      InsertKeeps(infos[0], SortInfos(infos[1..]));
      InsertInOrder(infos[0], SortInfos(infos[1..]));
      assert infos == [infos[0]] + infos[1..];
    }
  }

  // ---- The walk ----

  function StartOf(bucket: string, prefix: string): string {
    if prefix == "" then bucket else bucket + "/" + prefix
  }

  /** The keys reported, in the order the walk meets them. */
  function ReportedKeys(root: Tree, files: Files, bucket: string, prefix: string): Result<seq<string>> {
    if !ValidBucket(bucket) || !ValidPrefix(prefix) then Err(InvalidStorageKey)
    else match Find(root, Comps(StartOf(bucket, prefix)))
      case Missing => Ok([])
      case NotADirectory => Err(Io)
      case Node(t) => Ok(FilterMap(ReportedKey(files, bucket, prefix), AllFiles(StartOf(bucket, prefix), t)))
  }

  /** What is left to report when this stack is popped from its end. */
  ghost function Unreported(files: Files, bucket: string, prefix: string, paths: seq<string>, nodes: seq<Tree>): seq<string>
    requires |paths| == |nodes|
  {
    FilterMap(ReportedKey(files, bucket, prefix), StackFiles(paths, nodes))
  }

  /** Every stacked path names its node, and the keys gathered and those that the stack still leads to are all there are. */
  ghost predicate Walking(root: Tree, files: Files, bucket: string, prefix: string, paths: seq<string>, nodes: seq<Tree>,
                          keys: seq<string>, all: seq<string>) {
    StackOk(root, paths, nodes) && keys + Unreported(files, bucket, prefix, paths, nodes) == all
  }

  function WithKey(keys: seq<string>, key: Option<string>): seq<string> {
    if key.Some? then keys + [key.value] else keys
  }

  lemma PopFiles(files: Files, bucket: string, prefix: string, paths: seq<string>, nodes: seq<Tree>)
    requires |paths| == |nodes| > 0 && nodes[|nodes| - 1].File?
    ensures var last := |paths| - 1;
            var key := KeyOf(files, bucket, prefix, paths[last]);
            Unreported(files, bucket, prefix, paths, nodes) ==
            (if key.Some? then [key.value] else []) + Unreported(files, bucket, prefix, paths[..last], nodes[..last])
  {
    var last := |paths| - 1;
    var f := ReportedKey(files, bucket, prefix);
    assert StackFiles(paths, nodes) == [paths[last]] + StackFiles(paths[..last], nodes[..last]);
    FilterMapConcat(f, [paths[last]], StackFiles(paths[..last], nodes[..last]));
    FilterMapOne(f, paths[last]);
  }

  lemma MoveKey(keys: seq<string>, key: Option<string>, rest: seq<string>)
    ensures keys + ((if key.Some? then [key.value] else []) + rest) == WithKey(keys, key) + rest
  {
  }

  lemma PopSmaller(nodes: seq<Tree>)
    requires nodes != [] && nodes[|nodes| - 1].File?
    ensures StackSize(nodes[..|nodes| - 1]) < StackSize(nodes)
  {
    StackSizePop(nodes);
  }

  /** Popping a file accounts for exactly the key it is reported under. */
  lemma PopReported(root: Tree, files: Files, bucket: string, prefix: string, paths: seq<string>, nodes: seq<Tree>,
                    keys: seq<string>, all: seq<string>)
    requires Walking(root, files, bucket, prefix, paths, nodes, keys, all) && |paths| > 0 && nodes[|nodes| - 1].File?
    ensures Walking(root, files, bucket, prefix, paths[..|paths| - 1], nodes[..|paths| - 1],
                    WithKey(keys, KeyOf(files, bucket, prefix, paths[|paths| - 1])), all)
    ensures StackSize(nodes[..|paths| - 1]) < StackSize(nodes)
  {
    var last := |paths| - 1;
    StackOkPop(root, paths, nodes);
    PopFiles(files, bucket, prefix, paths, nodes);
    MoveKey(keys, KeyOf(files, bucket, prefix, paths[last]), Unreported(files, bucket, prefix, paths[..last], nodes[..last]));
    PopSmaller(nodes);
  }

  lemma FilterMapOne<A, B>(f: A -> Option<B>, a: A)
    ensures FilterMap(f, [a]) == if f(a).Some? then [f(a).value] else []
  {
    assert [a][1..] == [];
  }

  /** Opening a directory changes neither. */
  lemma OpenReported(root: Tree, files: Files, bucket: string, prefix: string, paths: seq<string>, nodes: seq<Tree>, es: seq<Entry>,
                     keys: seq<string>, all: seq<string>)
    requires Walking(root, files, bucket, prefix, paths, nodes, keys, all) && |paths| > 0 && nodes[|nodes| - 1] == Dir(es)
    ensures Walking(root, files, bucket, prefix, paths[..|paths| - 1] + ReversedChildren(paths[|paths| - 1], es),
                    nodes[..|paths| - 1] + ReversedNodes(es), keys, all)
    ensures StackSize(nodes[..|paths| - 1] + ReversedNodes(es)) < StackSize(nodes)
  {
    StackStep(root, paths, nodes);
    SameFilesLeft(root, files, bucket, prefix, paths, nodes, paths[..|paths| - 1] + ReversedChildren(paths[|paths| - 1], es),
                  nodes[..|paths| - 1] + ReversedNodes(es), keys, all);
  }

  lemma SameFilesLeft(root: Tree, files: Files, bucket: string, prefix: string, paths: seq<string>, nodes: seq<Tree>,
                      ps: seq<string>, ns: seq<Tree>, keys: seq<string>, all: seq<string>)
    requires Walking(root, files, bucket, prefix, paths, nodes, keys, all) && StackOk(root, ps, ns)
    requires StackFiles(ps, ns) == StackFiles(paths, nodes)
    ensures Walking(root, files, bucket, prefix, ps, ns, keys, all)
  {
  }

  lemma StartWalking(root: Tree, files: Files, bucket: string, prefix: string, path: string, start: Tree)
    requires WellFormed(start) && Find(root, Comps(path)) == Node(start)
    ensures Walking(root, files, bucket, prefix, [path], [start], [], FilterMap(ReportedKey(files, bucket, prefix), AllFiles(path, start)))
  {
    StartFiles(path, start);
  }

  lemma WalkOver(root: Tree, files: Files, bucket: string, prefix: string, keys: seq<string>, all: seq<string>)
    requires Walking(root, files, bucket, prefix, [], [], keys, all)
    ensures keys == all
  {
  }

  /** The infos gathered are those of the keys gathered. */
  ghost predicate Gathered(files: Files, bucket: string, keys: seq<string>, objects: seq<ObjectInfo>) {
    (forall k | k in keys :: GetObjectMetadata(files, bucket, k).Ok?) && objects == Infos(files, bucket, keys)
  }

  lemma GatherOne(files: Files, bucket: string, keys: seq<string>, objects: seq<ObjectInfo>, key: string, info: ObjectInfo)
    requires Gathered(files, bucket, keys, objects) && GetObjectMetadata(files, bucket, key) == Ok(info)
    ensures Gathered(files, bucket, keys + [key], objects + [info])
  {
  }

  /** A file popped from the stack: it is reported if it is not temporary, below the prefix, and has a sidecar that parses. */
  method ReportFile(files: Files, bucket: string, prefix: string, path: string, objects: seq<ObjectInfo>, ghost keys: seq<string>)
    returns (more: seq<ObjectInfo>)
    requires Gathered(files, bucket, keys, objects)
    ensures Gathered(files, bucket, WithKey(keys, KeyOf(files, bucket, prefix, path)), more)
  {
    if IsUploading(path) {
      return objects;
    }
    var key := KeyForBucketPath(bucket, path);
    if key.None? || !(prefix <= key.value) {
      return objects;
    }
    var info := GetObjectMetadata(files, bucket, key.value);
    if info.Err? {
      return objects;
    }
    GatherOne(files, bucket, keys, objects, key.value, info.value);
    return objects + [info.value];
  }

  /** The loop of `list_objects` from a start that exists. */
  method WalkObjects(root: Tree, files: Files, bucket: string, prefix: string, ghost start: Tree)
    returns (objects: seq<ObjectInfo>, ghost keys: seq<string>)
    requires WellFormed(start) && Find(root, Comps(StartOf(bucket, prefix))) == Node(start)
    ensures keys == FilterMap(ReportedKey(files, bucket, prefix), AllFiles(StartOf(bucket, prefix), start))
    ensures Gathered(files, bucket, FilterMap(ReportedKey(files, bucket, prefix), AllFiles(StartOf(bucket, prefix), start)), objects)
  {
    objects, keys := [], [];
    var stack := [StartOf(bucket, prefix)];
    ghost var nodes := [start];
    ghost var all := FilterMap(ReportedKey(files, bucket, prefix), AllFiles(StartOf(bucket, prefix), start));
    StartWalking(root, files, bucket, prefix, StartOf(bucket, prefix), start);
    while stack != []
      invariant Walking(root, files, bucket, prefix, stack, nodes, keys, all)
      invariant Gathered(files, bucket, keys, objects)
      decreases StackSize(nodes)
    {
      var last := |stack| - 1;
      var path := stack[last];
      PathIsFound(root, stack, nodes);
      match Find(root, Comps(path)).tree {
        case File =>
          PopReported(root, files, bucket, prefix, stack, nodes, keys, all);
          objects := ReportFile(files, bucket, prefix, path, objects, keys);
          keys := WithKey(keys, KeyOf(files, bucket, prefix, path));
          stack, nodes := stack[..last], nodes[..last];
        case Dir(entries) =>
          OpenReported(root, files, bucket, prefix, stack, nodes, entries, keys, all);
          stack := stack[..last] + ReversedChildren(path, entries);
          nodes := nodes[..last] + ReversedNodes(entries);
      }
    }
    WalkOver(root, files, bucket, prefix, keys, all);
  }

  // ---- What is listed ----

  /** A path in the bucket's directory is that of one key. */
  lemma PathOfKey(bucket: string, prefix: string, path: string, key: string)
    requires ValidBucket(bucket) && ValidPrefix(prefix) && Under(StartOf(bucket, prefix), path) && ValidKey(key)
    ensures KeyForBucketPath(bucket, path) == Some(key) <==> path == bucket + "/" + key
    ensures path == bucket + "/" + key ==> Below(prefix, key)
  {
    if path == bucket + "/" + key {
      assert path[|bucket + "/"|..] == key;
      if prefix != "" {
        var start := bucket + "/" + prefix;
        assert |start| == |bucket| + 1 + |prefix|;
        if path == start {
          assert key == prefix;
        } else {
          assert start + "/" <= path;
          assert (start + "/")[|bucket| + 1..] == prefix + "/";
        }
      }
    }
  }

  lemma KeyOfPath(bucket: string, prefix: string, key: string)
    requires ValidBucket(bucket) && ValidPrefix(prefix) && ValidKey(key) && Below(prefix, key)
    ensures Under(StartOf(bucket, prefix), bucket + "/" + key) && prefix <= key
  {
    if prefix != "" && key != prefix {
      assert bucket + "/" + key == bucket + "/" + prefix + "/" + key[|prefix| + 1..];
    }
  }

  lemma MetadataOkIff(files: Files, bucket: string, key: string)
    requires ValidBucket(bucket)
    ensures GetObjectMetadata(files, bucket, key).Ok? <==>
              && ValidKey(key) && ObjectMetadataPath(bucket, key).value in files
              && files[ObjectMetadataPath(bucket, key).value].Sidecar?
    ensures GetObjectMetadata(files, bucket, key).Ok? ==>
              At(files, ObjectMetadataPath(bucket, key).value) == Some(Sidecar(GetObjectMetadata(files, bucket, key).value))
    ensures GetObjectMetadata(files, bucket, key) == Err(InvalidStorageKey) <==> !ValidKey(key)
    ensures GetObjectMetadata(files, bucket, key) == Err(MissingBlob) <==>
              ValidKey(key) && ObjectMetadataPath(bucket, key).value !in files
  {
  }

  lemma ShownIff(files: Files, bucket: string, key: string)
    requires ValidBucket(bucket)
    ensures Shown(files, bucket, key) <==>
              && ValidKey(key) && bucket + "/" + key in files && !IsUploading(bucket + "/" + key)
              && GetObjectMetadata(files, bucket, key).Ok?
  {
    MetadataOkIff(files, bucket, key);
  }

  lemma ReportedIff(files: Files, bucket: string, prefix: string, path: string, key: string)
    ensures KeyOf(files, bucket, prefix, path) == Some(key) <==>
              !IsUploading(path) && KeyForBucketPath(bucket, path) == Some(key) && prefix <= key && GetObjectMetadata(files, bucket, key).Ok?
  {
  }

  /** A file below the start is reported under a key exactly if that is the file of a shown object. */
  lemma ReportedIffShown(files: Files, bucket: string, prefix: string, path: string, key: string)
    requires ValidBucket(bucket) && ValidPrefix(prefix) && Under(StartOf(bucket, prefix), path) && path in files
    ensures KeyOf(files, bucket, prefix, path) == Some(key) <==>
            path == bucket + "/" + key && Shown(files, bucket, key) && Below(prefix, key)
  {
    ReportedIff(files, bucket, prefix, path, key);
    ShownIff(files, bucket, key);
    MetadataOkIff(files, bucket, key);
    if ValidKey(key) {
      PathOfKey(bucket, prefix, path, key);
      if Below(prefix, key) {
        KeyOfPath(bucket, prefix, key);
      }
    }
  }

  lemma StartIsValid(bucket: string, prefix: string)
    requires ValidBucket(bucket) && ValidPrefix(prefix)
    ensures ValidKey(StartOf(bucket, prefix))
  {
    if prefix != "" {
      ValidJoin(bucket, prefix);
    }
  }

  lemma AllUnder(path: string, t: Tree)
    requires path != ""
    ensures forall k | k in AllFiles(path, t) :: Under(path, k)
  {
    forall k | k in AllFiles(path, t)
      ensures Under(path, k)
    {
      FilesUnder(path, t, k);
    }
  }

  /** The keys reported are those of the objects shown below the prefix, each once. */
  lemma ReportedExactly(root: Tree, files: Files, bucket: string, prefix: string)
    requires WellFormed(root) && Holds(root, files) && ReportedKeys(root, files, bucket, prefix).Ok?
    ensures var keys := ReportedKeys(root, files, bucket, prefix).value;
            Distinct(keys) && forall k :: k in keys <==> Shown(files, bucket, k) && Below(prefix, k)
  {
    StartIsValid(bucket, prefix);
    var start, keys := StartOf(bucket, prefix), ReportedKeys(root, files, bucket, prefix).value;
    forall k
      ensures k in keys <==> Shown(files, bucket, k) && Below(prefix, k)
    {
      ReportedMember(root, files, bucket, prefix, k);
    }
    if Find(root, Comps(start)).Node? {
      var t := Find(root, Comps(start)).tree;
      FoundIsWellFormed(root, Comps(start));
      WalkInPathOrder(start, t);
      ReportedOnce(files, bucket, prefix, start, t);
    }
  }

  lemma ReportedMember(root: Tree, files: Files, bucket: string, prefix: string, k: string)
    requires WellFormed(root) && Holds(root, files) && ReportedKeys(root, files, bucket, prefix).Ok?
    ensures k in ReportedKeys(root, files, bucket, prefix).value <==> Shown(files, bucket, k) && Below(prefix, k)
  {
    StartIsValid(bucket, prefix);
    var start, keys := StartOf(bucket, prefix), ReportedKeys(root, files, bucket, prefix).value;
    var path := bucket + "/" + k;
    FilesBelow(root, start, path);
    if Find(root, Comps(start)).Node? {
      var t := Find(root, Comps(start)).tree;
      AllUnder(start, t);
      FilterMapMembers(ReportedKey(files, bucket, prefix), AllFiles(start, t));
      if k in keys {
        var p := Origin(ReportedKey(files, bucket, prefix), AllFiles(start, t), k);
        FilesBelow(root, start, p);
        ReportedIffShown(files, bucket, prefix, p, k);
      }
    }
    if Shown(files, bucket, k) && Below(prefix, k) {
      KeyOfPath(bucket, prefix, k);
      assert path in files;
      ReportedIffShown(files, bucket, prefix, path, k);
    }
  }

  lemma ReportedOnce(files: Files, bucket: string, prefix: string, start: string, t: Tree)
    requires PathAscending(AllFiles(start, t))
    ensures Distinct(FilterMap(ReportedKey(files, bucket, prefix), AllFiles(start, t)))
  {
    var f, paths := ReportedKey(files, bucket, prefix), AllFiles(start, t);
    forall i, j | 0 <= i < j < |paths| && f(paths[i]).Some?
      ensures f(paths[i]) != f(paths[j])
    {
      PathLessAsymmetric(paths[i], paths[j]);
      SameKeySamePath(bucket, paths[i], paths[j]);
    }
    FilterMapDistinct(f, paths);
  }

  lemma SameKeySamePath(bucket: string, p: string, q: string)
    requires p != q && KeyForBucketPath(bucket, p).Some? && KeyForBucketPath(bucket, p).value != ""
    ensures KeyForBucketPath(bucket, p) != KeyForBucketPath(bucket, q)
  {
  }

  // ---- The listing ----

  /** The keys are those of the objects shown below the prefix, each once. */
  ghost predicate ShownKeys(files: Files, bucket: string, prefix: string, keys: seq<string>) {
    Distinct(keys) && forall k :: k in keys <==> Shown(files, bucket, k) && Below(prefix, k)
  }

  lemma ListedHaveInfo(files: Files, bucket: string, prefix: string, keys: seq<string>)
    requires ValidBucket(bucket) && ShownKeys(files, bucket, prefix, keys)
    ensures forall k | k in keys :: GetObjectMetadata(files, bucket, k).Ok?
  {
    forall k | k in keys
      ensures GetObjectMetadata(files, bucket, k).Ok?
    {
      ShownIff(files, bucket, k);
    }
  }

  lemma NothingShown(root: Tree, files: Files, bucket: string, prefix: string)
    requires WellFormed(root) && Holds(root, files) && ReportedKeys(root, files, bucket, prefix) == Ok([])
    ensures ShownKeys(files, bucket, prefix, [])
  {
    ReportedExactly(root, files, bucket, prefix);
  }

  lemma ListingFailsIff(root: Tree, files: Files, bucket: string, prefix: string)
    requires WellFormed(root) && root.Dir? && ValidBucket(bucket) && ValidPrefix(prefix)
    ensures ReportedKeys(root, files, bucket, prefix) == Err(Io) <==> BelowAFile(root, StartOf(bucket, prefix))
    ensures ReportedKeys(root, files, bucket, prefix).Err? ==> ReportedKeys(root, files, bucket, prefix).error == Io
  {
    var start := StartOf(bucket, prefix);
    StartIsValid(bucket, prefix);
    if f :| f in AllFiles("", root) && f + "/" <= start {
      BelowFileFails(root, start, f);
    }
    if Find(root, Comps(start)) == NotADirectory {
      var f := FailsBelowFile(root, start);
    }
  }

  /**
    `list_objects`: what the sidecars say of the objects shown below the prefix, of each once, sorted by the key
    recorded there; an error exactly for an invalid bucket or prefix, or a prefix below a file.
   */
  method ListObjects(root: Tree, files: Files, bucket: string, prefix: string)
    returns (r: Result<seq<ObjectInfo>>, ghost keys: seq<string>)
    requires WellFormed(root) && root.Dir? && Holds(root, files)
    ensures r.Ok? ==>
              && ValidBucket(bucket) && ShownKeys(files, bucket, prefix, keys)
              && (forall k | k in keys :: GetObjectMetadata(files, bucket, k).Ok?)
              && multiset(r.value) == multiset(Infos(files, bucket, keys)) && InKeyOrder(r.value)
    ensures r == Err(InvalidStorageKey) <==> !ValidBucket(bucket) || !ValidPrefix(prefix)
    ensures r == Err(Io) <==> ValidBucket(bucket) && ValidPrefix(prefix) && BelowAFile(root, StartOf(bucket, prefix))
    ensures r.Err? ==> r.error in {InvalidStorageKey, Io}
  {
    keys := [];
    if !ValidBucket(bucket) || !ValidPrefix(prefix) {
      return Err(InvalidStorageKey), keys;
    }
    ListingFailsIff(root, files, bucket, prefix);
    match Find(root, Comps(StartOf(bucket, prefix))) {
      case Missing =>
        NothingShown(root, files, bucket, prefix);
        return Ok([]), keys;
      case NotADirectory =>
        return Err(Io), keys;
      case Node(start) =>
        FoundIsWellFormed(root, Comps(StartOf(bucket, prefix)));
        var objects;
        objects, keys := WalkObjects(root, files, bucket, prefix, start);
        ReportedExactly(root, files, bucket, prefix);
        ListedHaveInfo(files, bucket, prefix, keys);
        SortedInfos(objects);
        return Ok(SortInfos(objects)), keys;
    }
  }

  // ---- A listing of objects that agree ----

  ghost predicate RecordsItsKey(files: Files, bucket: string, keys: seq<string>) {
    forall k | k in keys :: GetObjectMetadata(files, bucket, k).Ok? && GetObjectMetadata(files, bucket, k).value.key == k
  }

  lemma InfoOrigin(files: Files, bucket: string, keys: seq<string>, listed: seq<ObjectInfo>, info: ObjectInfo)
    requires RecordsItsKey(files, bucket, keys) && multiset(listed) == multiset(Infos(files, bucket, keys)) && info in listed
    ensures info.key in keys && GetObjectMetadata(files, bucket, info.key) == Ok(info)
  {
    assert info in multiset(Infos(files, bucket, keys));
    assert info in Infos(files, bucket, keys);
    var i :| 0 <= i < |keys| && Infos(files, bucket, keys)[i] == info;
    assert keys[i] in keys;
  }

  lemma {:induction false} InfosOnce(files: Files, bucket: string, keys: seq<string>, info: ObjectInfo)
    requires RecordsItsKey(files, bucket, keys) && Distinct(keys)
    ensures multiset(Infos(files, bucket, keys))[info] <= 1
  {
    if keys != [] {
      var rest := keys[1..];
      assert Distinct(rest) && RecordsItsKey(files, bucket, rest);
      InfosOnce(files, bucket, rest, info);
      var infos := Infos(files, bucket, keys);
      assert infos[1..] == Infos(files, bucket, rest);
      assert infos == [infos[0]] + infos[1..];
      if infos[0] == info && info in infos[1..] {
        InfoOrigin(files, bucket, rest, infos[1..], info);
      }
    }
  }

  lemma TwiceCounted(infos: seq<ObjectInfo>, i: nat, j: nat)
    requires i < j < |infos| && infos[i] == infos[j]
    ensures multiset(infos)[infos[i]] >= 2
  {
    assert infos == infos[..j] + infos[j..];
    assert infos[i] in infos[..j] && infos[j] in infos[j..];
  }

  /**
    When the bucket's objects are outside the window, the listing has the shown keys in strictly ascending order,
    each with bucket, key, size and hash of the data under it.
   */
  lemma AgreeingListing(files: Files, window: set<(string, string)>, bucket: string, prefix: string, keys: seq<string>,
                        listed: seq<ObjectInfo>, sha256: Bytes -> string)
    requires Consistent(Snapshot(files, window), sha256) && bucket != INTERNAL_STORAGE_DIR && ValidBucket(bucket)
    requires ShownKeys(files, bucket, prefix, keys) && forall k | k in keys :: (bucket, k) !in window && GetObjectMetadata(files, bucket, k).Ok?
    requires multiset(listed) == multiset(Infos(files, bucket, keys)) && InKeyOrder(listed)
    ensures forall i, j :: 0 <= i < j < |listed| ==> KeyLess(listed[i].key, listed[j].key)
    ensures forall k :: k in keys <==> exists info | info in listed :: info.key == k
    ensures forall info | info in listed ::
              bucket + "/" + info.key in files && Describes(info, bucket, info.key, files[bucket + "/" + info.key], sha256)
  {
    AgreeingRecordKeys(files, window, bucket, prefix, keys, sha256);
    forall info | info in listed
      ensures info.key in keys && bucket + "/" + info.key in files
      ensures Describes(info, bucket, info.key, files[bucket + "/" + info.key], sha256)
    {
      InfoOrigin(files, bucket, keys, listed, info);
      assert Agrees(files, bucket, info.key, sha256);
    }
    forall k | k in keys
      ensures exists info | info in listed :: info.key == k
    {
      KeyIsListed(files, bucket, keys, listed, k);
    }
    forall i, j | 0 <= i < j < |listed|
      ensures KeyLess(listed[i].key, listed[j].key)
    {
      KeyLessTotal(listed[i].key, listed[j].key);
      if listed[i].key == listed[j].key {
        InfoOrigin(files, bucket, keys, listed, listed[i]);
        InfoOrigin(files, bucket, keys, listed, listed[j]);
        TwiceCounted(listed, i, j);
        InfosOnce(files, bucket, keys, listed[i]);
      }
    }
  }

  lemma AgreeingRecordKeys(files: Files, window: set<(string, string)>, bucket: string, prefix: string, keys: seq<string>,
                           sha256: Bytes -> string)
    requires Consistent(Snapshot(files, window), sha256) && bucket != INTERNAL_STORAGE_DIR && ValidBucket(bucket)
    requires ShownKeys(files, bucket, prefix, keys) && forall k | k in keys :: (bucket, k) !in window && GetObjectMetadata(files, bucket, k).Ok?
    ensures RecordsItsKey(files, bucket, keys)
  {
    forall k | k in keys
      ensures GetObjectMetadata(files, bucket, k).value.key == k
    {
      assert Agrees(files, bucket, k, sha256);
      MetadataOkIff(files, bucket, k);
    }
  }

  lemma KeyIsListed(files: Files, bucket: string, keys: seq<string>, listed: seq<ObjectInfo>, k: string)
    requires RecordsItsKey(files, bucket, keys) && multiset(listed) == multiset(Infos(files, bucket, keys)) && k in keys
    ensures exists info | info in listed :: info.key == k
  {
    var i :| 0 <= i < |keys| && keys[i] == k;
    var info := Infos(files, bucket, keys)[i];
    assert info in multiset(Infos(files, bucket, keys));
    assert info in listed;
  }
}
