/**
  Two orders on keys.  `KeyLess` is how Rust compares `String` values; code point order is byte
  order on UTF-8 text.  `PathLess` is how a sorted directory walk meets files: component by
  component, so the separator comes before every other character.
 */
module KeyOrder {

  predicate Agree(a: string, b: string, i: nat) {
    i <= |a| && i <= |b| && forall k | 0 <= k < i :: a[k] == b[k]
  }

  /** Length of the longest common prefix. */
  function Diff(a: string, b: string): (i: nat)
    ensures Agree(a, b, i)
    ensures i == |a| || i == |b| || a[i] != b[i]
  {
    if a == "" || b == "" || a[0] != b[0] then 0 else 1 + Diff(a[1..], b[1..])
  }

  lemma DiffIs(a: string, b: string, i: nat)
    requires Agree(a, b, i)
    requires i == |a| || i == |b| || a[i] != b[i]
    ensures Diff(a, b) == i
  {
  }

  predicate KeyLess(a: string, b: string) {
    var i := Diff(a, b);
    i < |b| && (i == |a| || a[i] < b[i])
  }

  /** The separator sorts before every other character. */
  predicate Before(x: char, y: char) {
    x != y && (x == '/' || (y != '/' && x < y))
  }

  predicate PathLess(a: string, b: string) {
    var i := Diff(a, b);
    i < |b| && (i == |a| || Before(a[i], b[i]))
  }

  /** The two orders disagree on a and b: where they first differ, a has the separator and b a character below it. */
  predicate Clash(a: string, b: string) {
    var i := Diff(a, b);
    i < |a| && i < |b| && a[i] == '/' && b[i] < '/'
  }

  lemma DiffSymmetric(a: string, b: string)
    ensures Diff(a, b) == Diff(b, a)
  {
    DiffIs(b, a, Diff(a, b));
  }

  lemma KeyLessTotal(a: string, b: string)
    ensures !(KeyLess(a, b) && KeyLess(b, a))
    ensures !KeyLess(a, a)
    ensures a == b || KeyLess(a, b) || KeyLess(b, a)
  {
    DiffSymmetric(a, b);
    DiffIs(a, a, |a|);
    if Diff(a, b) == |a| == |b| {
      assert a == b;
    }
  }

  lemma DiffThrough(a: string, b: string, c: string)
    requires Diff(a, b) < |b| && Diff(b, c) < |c|
    ensures var i, j, k := Diff(a, b), Diff(b, c), Diff(a, c);
            (i < j ==> k == i && b[i] == c[i]) && (j < i ==> k == j && a[j] == b[j]) && (i == j ==> k >= i)
  {
    var i, j := Diff(a, b), Diff(b, c);
    if i < j {
      DiffIs(a, c, i);
    } else if j < i {
      DiffIs(a, c, j);
    }
  }

  lemma KeyLessTransitive(a: string, b: string, c: string)
    requires KeyLess(a, b) && KeyLess(b, c)
    ensures KeyLess(a, c)
  {
    DiffThrough(a, b, c);
    var i := Diff(a, b);
    if i == Diff(b, c) {
      DiffIs(a, c, i);
    }
  }

  /** Where a walk puts a before b, byte order agrees exactly when the pair does not clash. */
  lemma OrdersAgree(a: string, b: string)
    requires PathLess(a, b)
    ensures KeyLess(a, b) <==> !Clash(a, b)
    ensures KeyLess(b, a) <==> Clash(a, b)
  {
    DiffSymmetric(a, b);
  }

  ghost predicate Ascending(keys: seq<string>) {
    forall i, j :: 0 <= i < j < |keys| ==> KeyLess(keys[i], keys[j])
  }

  ghost predicate PathAscending(keys: seq<string>) {
    forall i, j :: 0 <= i < j < |keys| ==> PathLess(keys[i], keys[j])
  }

  /** No two keys of the list clash. */
  ghost predicate NoClash(keys: seq<string>) {
    forall i, j :: 0 <= i < |keys| && 0 <= j < |keys| ==> !Clash(keys[i], keys[j])
  }

  lemma ClashIsPathLess(a: string, b: string)
    requires Clash(a, b)
    ensures PathLess(a, b) && !PathLess(b, a)
  {
    DiffSymmetric(a, b);
  }

  lemma PathLessAsymmetric(a: string, b: string)
    requires PathLess(a, b)
    ensures !PathLess(b, a) && a != b
  {
    DiffSymmetric(a, b);
    DiffIs(a, a, |a|);
  }

  /** A walk's output is in byte order exactly when no two of its keys clash. */
  lemma AscendingIffNoClash(keys: seq<string>)
    requires PathAscending(keys)
    ensures Ascending(keys) <==> NoClash(keys)
  {
    forall i, j | 0 <= i < |keys| && 0 <= j < |keys| && Clash(keys[i], keys[j])
      ensures i < j && !KeyLess(keys[i], keys[j])
    {
      ClashIsPathLess(keys[i], keys[j]);
      OrdersAgree(keys[i], keys[j]);
      PathLessAsymmetric(keys[i], keys[j]);
    }
    if NoClash(keys) {
      forall i, j | 0 <= i < j < |keys|
        ensures KeyLess(keys[i], keys[j])
      {
        OrdersAgree(keys[i], keys[j]);
      }
    }
  }

  /** A common prefix changes neither order nor clashes. */
  lemma DiffPrefixed(p: string, a: string, b: string)
    ensures Diff(p + a, p + b) == |p| + Diff(a, b)
  {
    DiffIs(p + a, p + b, |p| + Diff(a, b));
  }

  lemma PathLessPrefixed(p: string, a: string, b: string)
    ensures PathLess(p + a, p + b) <==> PathLess(a, b)
    ensures KeyLess(p + a, p + b) <==> KeyLess(a, b)
  {
    DiffPrefixed(p, a, b);
  }
}
