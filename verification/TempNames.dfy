/** UUIDs in text form, and the temporary names that writers derive from a key and a UUID. */
module TempNames {
  import opened Wrappers
  import opened Keys

  const TEMP_SUFFIX := ".uploading"

  /** A UUID as its 32 hexadecimal digits, most significant first. */
  type Uuid = u: seq<Digit> | |u| == 32
    witness seq(32, _ => 0)

  type Digit = d: nat | d < 16

  function HexDigit(d: Digit): char {
    "0123456789abcdef"[d]
  }

  /** The value of a hexadecimal digit of either case; 16 for any other character. */
  function HexValue(c: char): nat {
    if '0' <= c <= '9' then c as int - '0' as int
    else if 'a' <= c <= 'f' then c as int - 'a' as int + 10
    else if 'A' <= c <= 'F' then c as int - 'A' as int + 10
    else 16
  }

  /** The text form of section 4 of RFC 9562: lower case, grouped 8-4-4-4-12. */
  function Text(u: Uuid): (t: string)
    ensures |t| == 36
  {
    seq(36, i requires 0 <= i < 36 => TextChar(u, i))
  }

  function TextChar(u: Uuid, i: nat): char
    requires i < 36
  {
    if i == 8 || i == 13 || i == 18 || i == 23 then '-'
    else HexDigit(u[if i < 8 then i else if i < 13 then i - 1 else if i < 18 then i - 2 else if i < 23 then i - 3 else i - 4])
  }

  lemma TextChars(u: Uuid)
    ensures forall c | c in Text(u) :: c == '-' || HexValue(c) < 16
  {
  }

  function ParseSimple(s: string): Option<Uuid> {
    if |s| == 32 && forall c | c in s :: HexValue(c) < 16
    then Some(seq(32, i requires 0 <= i < 32 => HexValue(s[i])))
    else None
  }

  function ParseHyphenated(s: string): Option<Uuid> {
    if |s| == 36 && s[8] == s[13] == s[18] == s[23] == '-'
    then ParseSimple(s[..8] + s[9..13] + s[14..18] + s[19..23] + s[24..])
    else None
  }

  /** `Uuid::parse_str`, which also takes the undashed, braced and URN forms. */
  function ParseUuid(s: string): Option<Uuid> {
    if |s| == 32 then ParseSimple(s)
    else if |s| == 36 then ParseHyphenated(s)
    else if |s| == 38 && s[0] == '{' && s[37] == '}' then ParseHyphenated(s[1..37])
    else if |s| == 45 && s[..9] == "urn:uuid:" then ParseHyphenated(s[9..])
    else None
  }

  lemma ParseText(u: Uuid)
    ensures ParseUuid(Text(u)) == Some(u)
  {
    var s := Text(u);
    var t := s[..8] + s[9..13] + s[14..18] + s[19..23] + s[24..];
    assert forall i | 0 <= i < 32 :: t[i] == HexDigit(u[i]);
    assert forall i | 0 <= i < 32 :: HexValue(t[i]) == u[i];
    assert seq(32, i requires 0 <= i < 32 => HexValue(t[i])) == u;
  }

  // ---- What a UUID looks like ----

  /** The 32 digits alone. */
  function Digits(u: Uuid): (t: string)
    ensures |t| == 32
  {
    seq(32, i requires 0 <= i < 32 => HexDigit(u[i]))
  }

  /** The text form is in lower case, and is the digits cut by hyphens into groups of 8, 4, 4, 4 and 12. */
  lemma TextGroups(u: Uuid)
    ensures var d := Digits(u);
            Text(u) == d[..8] + "-" + d[8..12] + "-" + d[12..16] + "-" + d[16..20] + "-" + d[20..]
    ensures forall i | 0 <= i < 32 :: "0123456789abcdef"[u[i]] == Digits(u)[i]
  {
    var d := Digits(u);
    var t := d[..8] + "-" + d[8..12] + "-" + d[12..16] + "-" + d[16..20] + "-" + d[20..];
    assert |t| == 36;
    forall i | 0 <= i < 36
      ensures Text(u)[i] == t[i]
    {
    }
  }

  /** The character, or the upper case of a hexadecimal letter. */
  predicate SameLetter(c: char, lower: char) {
    c == lower || (c in "ABCDEF" && lower as int == c as int + 32)
  }

  /** The text with any of its hexadecimal letters in upper case. */
  predicate InAnyCase(s: string, text: string) {
    |s| == |text| && forall i | 0 <= i < |s| :: SameLetter(s[i], text[i])
  }

  /** The forms of a UUID that are recognised: the digits alone, with hyphens, and these in braces or as a URN. */
  predicate IsUuidText(s: string, u: Uuid) {
    || InAnyCase(s, Digits(u))
    || InAnyCase(s, Text(u))
    || (|s| == 38 && s[0] == '{' && s[37] == '}' && InAnyCase(s[1..37], Text(u)))
    || (|s| == 45 && s[..9] == "urn:uuid:" && InAnyCase(s[9..], Text(u)))
  }

  lemma HexDigitIff(c: char, d: Digit)
    ensures HexValue(c) == d <==> SameLetter(c, HexDigit(d))
  {
  }

  lemma ParseSimpleIff(s: string, u: Uuid)
    ensures ParseSimple(s) == Some(u) <==> InAnyCase(s, Digits(u))
  {
    if |s| == 32 {
      forall i | 0 <= i < 32
        ensures HexValue(s[i]) == u[i] <==> SameLetter(s[i], Digits(u)[i])
      {
        HexDigitIff(s[i], u[i]);
      }
      if InAnyCase(s, Digits(u)) {
        assert seq(32, i requires 0 <= i < 32 => HexValue(s[i])) == u;
      }
      if ParseSimple(s) == Some(u) {
        assert forall i | 0 <= i < 32 :: HexValue(s[i]) == ParseSimple(s).value[i];
      }
    }
  }

  /** The text without what stands at the places of the hyphens. */
  function Dense(s: string): (t: string)
    requires |s| == 36
    ensures |t| == 32
  {
    s[..8] + s[9..13] + s[14..18] + s[19..23] + s[24..]
  }

  /** The place of the j-th digit among the hyphens. */
  function Place(j: nat): (i: nat)
    requires j < 32
    ensures i < 36 && i !in {8, 13, 18, 23}
  {
    if j < 8 then j else if j < 12 then j + 1 else if j < 16 then j + 2 else if j < 20 then j + 3 else j + 4
  }

  lemma AtPlaces(s: string, u: Uuid, j: nat)
    requires |s| == 36 && j < 32
    ensures Dense(s)[j] == s[Place(j)] && Digits(u)[j] == Text(u)[Place(j)]
  {
  }

  lemma PlacedDigit(i: nat) returns (j: nat)
    requires i < 36 && i !in {8, 13, 18, 23}
    ensures j < 32 && i == Place(j)
  {
    j := if i < 8 then i else if i < 13 then i - 1 else if i < 18 then i - 2 else if i < 23 then i - 3 else i - 4;
  }

  lemma HyphenOnly(c: char)
    ensures SameLetter(c, '-') <==> c == '-'
  {
  }

  lemma DenseInAnyCase(s: string, u: Uuid)
    requires |s| == 36
    ensures InAnyCase(s, Text(u)) <==> s[8] == s[13] == s[18] == s[23] == '-' && InAnyCase(Dense(s), Digits(u))
  {
    if InAnyCase(s, Text(u)) {
      HyphensInText(s, u);
      forall j | 0 <= j < 32
        ensures SameLetter(Dense(s)[j], Digits(u)[j])
      {
        AtPlaces(s, u, j);
      }
    }
    if s[8] == s[13] == s[18] == s[23] == '-' && InAnyCase(Dense(s), Digits(u)) {
      forall i | 0 <= i < 36
        ensures SameLetter(s[i], Text(u)[i])
      {
        if i !in {8, 13, 18, 23} {
          var j := PlacedDigit(i);
          AtPlaces(s, u, j);
        }
      }
    }
  }

  lemma HyphensInText(s: string, u: Uuid)
    requires |s| == 36 && InAnyCase(s, Text(u))
    ensures s[8] == s[13] == s[18] == s[23] == '-'
  {
    forall i | i in {8, 13, 18, 23}
      ensures s[i] == '-'
    {
      assert SameLetter(s[i], Text(u)[i]) && Text(u)[i] == '-';
      HyphenOnly(s[i]);
    }
  }

  lemma ParseHyphenatedIff(s: string, u: Uuid)
    ensures ParseHyphenated(s) == Some(u) <==> InAnyCase(s, Text(u))
  {
    if |s| == 36 {
      DenseInAnyCase(s, u);
      ParseSimpleIff(Dense(s), u);
    }
  }

  /** Parsing accepts exactly the four forms, and reads the UUID they spell. */
  lemma ParseUuidIff(s: string, u: Uuid)
    ensures ParseUuid(s) == Some(u) <==> IsUuidText(s, u)
  {
    ParseSimpleIff(s, u);
    ParseHyphenatedIff(s, u);
    if |s| == 38 {
      ParseHyphenatedIff(s[1..37], u);
    } else if |s| == 45 {
      ParseHyphenatedIff(s[9..], u);
    }
  }

  /** `rsplit_once`. */
  function RSplitOnce(s: string, c: char): (r: Option<(string, string)>)
    ensures r.None? <==> c !in s
    ensures r.Some? ==> s == r.value.0 + [c] + r.value.1 && c !in r.value.1
  {
    if s == "" then None
    else
      var front, last := s[..|s| - 1], s[|s| - 1];
      assert s == front + [last];
      if last == c then Some((front, ""))
      else match RSplitOnce(front, c)
        case None => None
        case Some((a, b)) => Some((a, b + [last]))
  }

  lemma {:induction false} RSplitUnique(a: string, c: char, b: string)
    requires c !in b
    ensures RSplitOnce(a + [c] + b, c) == Some((a, b))
  {
    var s := a + [c] + b;
    if b == "" {
      assert s[..|s| - 1] == a;
    } else {
      assert s[..|s| - 1] == a + [c] + b[..|b| - 1];
      RSplitUnique(a, c, b[..|b| - 1]);
      assert b == b[..|b| - 1] + [s[|s| - 1]];
    }
  }

  function ParentOf(key: string): string {
    match RSplitOnce(key, '/')
    case None => ""
    case Some((parent, _)) => parent
  }

  function FileName(key: string): string {
    match RSplitOnce(key, '/')
    case None => key
    case Some((_, name)) => name
  }

  /** A key is its parent and its file name; both are needed to tell "x" from "/x". */
  function InParent(parent: string, name: string): string {
    if parent == "" then name else parent + "/" + name
  }

  lemma FileNameOf(parent: string, name: string)
    requires '/' !in name
    ensures FileName(InParent(parent, name)) == name && ParentOf(InParent(parent, name)) == parent
  {
    if parent != "" {
      RSplitUnique(parent, '/', name);
      assert parent + "/" + name == parent + ['/'] + name;
    }
  }

  lemma KeyParts(key: string)
    requires ValidKey(key)
    ensures InParent(ParentOf(key), FileName(key)) == key && '/' !in FileName(key)
    ensures SafeComponent(FileName(key)) && (ParentOf(key) == "" || ValidKey(ParentOf(key)))
  {
    if RSplitOnce(key, '/').Some? {
      var (p, n) := RSplitOnce(key, '/').value;
      assert key == p + "/" + n;
      ValidEnds(key);
      ValidJoin(p, n);
      SplitSingle(n);
    } else {
      SplitSingle(key);
    }
  }

  // ---- SMB temporary keys ----

  /** SMB `temp_key`, with the UUID it draws made a parameter. */
  function SmbTempKey(key: string, u: Uuid): Result<string> {
    var temp := InParent(ParentOf(key), "." + FileName(key) + "." + Text(u) + TEMP_SUFFIX);
    if ValidKey(temp) then Ok(temp) else Err(InvalidStorageKey)
  }

  predicate EndsWith(s: string, suffix: string) {
    |suffix| <= |s| && s[|s| - |suffix|..] == suffix
  }

  /** SMB `is_temp_key`. */
  predicate IsSmbTempKey(key: string) {
    var name := FileName(key);
    EndsWith(name, TEMP_SUFFIX)
    && match RSplitOnce(name[..|name| - |TEMP_SUFFIX|], '.')
       case None => false
       case Some((_, text)) => ParseUuid(text).Some?
  }

  /** The file name is a stem, a dot, a UUID in one of its forms, and the suffix. */
  predicate MadeOf(name: string, stem: string, text: string, u: Uuid) {
    name == stem + "." + text + TEMP_SUFFIX && IsUuidText(text, u)
  }

  ghost predicate TempShape(name: string) {
    exists stem, text, u :: MadeOf(name, stem, text, u)
  }

  lemma UuidTextHasNoDot(text: string, u: Uuid)
    requires IsUuidText(text, u)
    ensures '.' !in text
  {
    TextChars(u);
    assert forall c | c in Digits(u) :: HexValue(c) < 16;
    if InAnyCase(text, Digits(u)) {
      PlainInAnyCase(text, Digits(u));
    } else if InAnyCase(text, Text(u)) {
      PlainInAnyCase(text, Text(u));
    } else if |text| == 38 {
      PlainInAnyCase(text[1..37], Text(u));
      assert text == "{" + text[1..37] + "}";
    } else {
      PlainInAnyCase(text[9..], Text(u));
      assert text == "urn:uuid:" + text[9..];
    }
  }

  lemma PlainInAnyCase(s: string, text: string)
    requires InAnyCase(s, text) && '.' !in text
    ensures '.' !in s
  {
    forall i | 0 <= i < |s|
      ensures s[i] != '.'
    {
      assert text[i] in text;
    }
  }

  /** Exactly the file names of that shape are taken for temporary ones. */
  lemma SmbTempKeyIff(key: string)
    ensures IsSmbTempKey(key) <==> TempShape(FileName(key))
  {
    hide ParseUuid, IsUuidText, FileName;
    var name := FileName(key);
    if IsSmbTempKey(key) {
      var front := name[..|name| - |TEMP_SUFFIX|];
      var (stem, text) := RSplitOnce(front, '.').value;
      ParseUuidIff(text, ParseUuid(text).value);
      assert name == front + TEMP_SUFFIX && front == stem + "." + text;
      assert MadeOf(name, stem, text, ParseUuid(text).value);
    }
    if stem, text, u :| MadeOf(name, stem, text, u) {
      var front := stem + ['.'] + text;
      assert name == front + TEMP_SUFFIX && name[..|name| - |TEMP_SUFFIX|] == front;
      UuidTextHasNoDot(text, u);
      RSplitUnique(stem, '.', text);
      ParseUuidIff(text, u);
    }
  }

  lemma TempNameSafe(name: string, u: Uuid)
    requires '/' !in name && '\\' !in name && '\0' !in name
    ensures var temp := "." + name + "." + Text(u) + TEMP_SUFFIX;
            '/' !in temp && '\\' !in temp && '\0' !in temp && SafeComponent(temp)
  {
    TextChars(u);
  }

  /** A temporary key is valid and recognised; it stays in the key's directory, where its name is the key's between dots, the UUID and the suffix. */
  lemma SmbTempKeyFacts(key: string, u: Uuid)
    requires ValidKey(key)
    ensures var r := SmbTempKey(key, u);
            r.Ok? && ValidKey(r.value) && ParentOf(r.value) == ParentOf(key) && IsSmbTempKey(r.value)
            && FileName(r.value) == "." + FileName(key) + "." + Text(u) + ".uploading" && r.value != key
  {
    var parent, name := ParentOf(key), FileName(key);
    KeyParts(key);
    assert '\\' !in name && '\0' !in name;
    var tempName := "." + name + "." + Text(u) + TEMP_SUFFIX;
    TempNameSafe(name, u);
    ValidSingle(tempName);
    if parent != "" {
      ValidJoin(parent, tempName);
    }
    FileNameOf(parent, tempName);
    assert |tempName| > |name|;
    TempStem(name, u);
  }

  lemma TempStem(name: string, u: Uuid)
    ensures var temp := "." + name + "." + Text(u) + TEMP_SUFFIX;
            EndsWith(temp, TEMP_SUFFIX)
            && RSplitOnce(temp[..|temp| - |TEMP_SUFFIX|], '.') == Some(("." + name, Text(u)))
            && ParseUuid(Text(u)).Some?
  {
    var temp := "." + name + "." + Text(u) + TEMP_SUFFIX;
    assert temp[..|temp| - |TEMP_SUFFIX|] == ("." + name) + ['.'] + Text(u);
    TextChars(u);
    RSplitUnique("." + name, '.', Text(u));
    ParseText(u);
  }

  /** A temporary key determines the key and the UUID it was made from. */
  lemma SmbTempKeyInjective(k1: string, u1: Uuid, k2: string, u2: Uuid)
    requires ValidKey(k1) && ValidKey(k2)
    requires SmbTempKey(k1, u1) == SmbTempKey(k2, u2)
    ensures k1 == k2 && u1 == u2
  {
    SmbTempKeyFacts(k1, u1);
    SmbTempKeyFacts(k2, u2);
    KeyParts(k1);
    KeyParts(k2);
    var n1, n2 := FileName(k1), FileName(k2);
    var t1, t2 := "." + n1 + "." + Text(u1) + TEMP_SUFFIX, "." + n2 + "." + Text(u2) + TEMP_SUFFIX;
    TempNameSafe(n1, u1);
    TempNameSafe(n2, u2);
    FileNameOf(ParentOf(k1), t1);
    FileNameOf(ParentOf(k2), t2);
    assert t1 == t2;
    TempStem(n1, u1);
    TempStem(n2, u2);
    assert n1 == ("." + n1)[1..] == ("." + n2)[1..] == n2;
    ParseText(u1);
    ParseText(u2);
  }

  // ---- Local temporary paths ----

  /** Local `temp_path_for`: the new file name is the old one with the UUID and the suffix after it. */
  function LocalTempPath(path: string, u: Uuid): string {
    path + "." + Text(u) + TEMP_SUFFIX
  }

  /** It stays in the directory of the path. */
  lemma LocalTempFacts(path: string, u: Uuid)
    ensures ParentOf(LocalTempPath(path, u)) == ParentOf(path)
    ensures FileName(LocalTempPath(path, u)) == FileName(path) + "." + Text(u) + ".uploading"
  {
    var suffix := "." + Text(u) + TEMP_SUFFIX;
    TextChars(u);
    assert LocalTempPath(path, u) == path + suffix;
    if RSplitOnce(path, '/').Some? {
      var (parent, name) := RSplitOnce(path, '/').value;
      assert path + suffix == parent + ['/'] + (name + suffix);
      RSplitUnique(parent, '/', name + suffix);
    }
  }

  /** Local `is_uploading_temp_file` looks at the suffix of the file name only. */
  predicate IsUploading(path: string) {
    EndsWith(FileName(path), TEMP_SUFFIX)
  }

  /** A suffix that reaches back over a separator contains it. */
  lemma SuffixOverSeparator(p: string, n: string, suffix: string)
    requires EndsWith(p + "/" + n, suffix) && |n| < |suffix|
    ensures '/' in suffix
  {
    var s := p + "/" + n;
    var i := |p| - (|s| - |suffix|);
    assert suffix[i] == s[|s| - |suffix|..][i] == s[|p|] == '/';
  }

  lemma SuffixOfJoin(p: string, n: string, suffix: string)
    requires '/' !in suffix
    ensures EndsWith(p + "/" + n, suffix) <==> EndsWith(n, suffix)
  {
    var s := p + "/" + n;
    if |n| < |suffix| {
      if EndsWith(s, suffix) {
        SuffixOverSeparator(p, n, suffix);
      }
    } else {
      assert s[|s| - |suffix|..] == n[|n| - |suffix|..];
    }
  }

  /** The suffix has no separator, so the test may be made on the whole path. */
  lemma UploadingIsSuffix(path: string)
    ensures IsUploading(path) <==> EndsWith(path, TEMP_SUFFIX)
  {
    if RSplitOnce(path, '/').Some? {
      var (p, n) := RSplitOnce(path, '/').value;
      assert path == p + "/" + n;
      SuffixOfJoin(p, n, TEMP_SUFFIX);
    }
  }

  lemma LocalTempInjective(p1: string, u1: Uuid, p2: string, u2: Uuid)
    requires LocalTempPath(p1, u1) == LocalTempPath(p2, u2)
    ensures p1 == p2 && u1 == u2
  {
    var t1, t2 := LocalTempPath(p1, u1), LocalTempPath(p2, u2);
    assert |p1| == |p2|;
    assert p1 == t1[..|p1|] == t2[..|p2|] == p2;
    assert Text(u1) == t1[|p1| + 1..|p1| + 37] == t2[|p2| + 1..|p2| + 37] == Text(u2);
    ParseText(u1);
    ParseText(u2);
  }

  lemma LocalTempUploading(path: string, u: Uuid)
    ensures IsUploading(LocalTempPath(path, u))
  {
    UploadingIsSuffix(LocalTempPath(path, u));
  }
}
