/** Pages cut from a list of keys by a byte-order continuation token, and draining them. */
module Paging {
  import opened Wrappers
  import opened Sequences
  import opened KeyOrder

  datatype BlobListPage = BlobListPage(keys: seq<string>, next: Option<string>)

  predicate IsAfter(token: Option<string>, key: string) {
    token.Some? ==> KeyLess(token.value, key)
  }

  /** The keys a page may still return, in their list order. */
  function After(keys: seq<string>, token: Option<string>): (rest: seq<string>)
    ensures |rest| <= |keys|
  {
    if keys == [] then []
    else if IsAfter(token, keys[0]) then [keys[0]] + After(keys[1..], token)
    else After(keys[1..], token)
  }

  lemma {:induction false} AfterMembers(keys: seq<string>, token: Option<string>)
    ensures forall k :: k in After(keys, token) <==> k in keys && IsAfter(token, k)
  {
    if keys != [] {
      AfterMembers(keys[1..], token);
    }
  }

  function Truncate(keys: seq<string>, limit: nat): seq<string> {
    if |keys| <= limit then keys else keys[..limit]
  }

  /** The page a lister cuts: `limit` keys after the token, and a token when more are left. */
  function PageOf(keys: seq<string>, token: Option<string>, limit: nat): BlobListPage
    requires limit >= 1
  {
    var rest := After(keys, token);
    if |rest| > limit then BlobListPage(rest[..limit], Some(rest[limit - 1])) else BlobListPage(rest, None)
  }

  /**
    A page holds at most `limit` keys, the first of those after the token. It carries a token, its own last key, if and
    only if a listed key after the token is left over.
   */
  lemma PageFacts(keys: seq<string>, token: Option<string>, limit: nat)
    requires limit >= 1
    ensures var page, rest := PageOf(keys, token, limit), After(keys, token);
            && |page.keys| <= limit && page.keys <= rest && (|page.keys| == limit || page.keys == rest)
            && (page.next.Some? <==> |page.keys| < |rest|)
            && (page.next.Some? ==> page.keys != [] && page.next.value == page.keys[|page.keys| - 1])
  {
  }

  /** On an ascending list: a token is given exactly if some key after the old token is not on the page. */
  lemma TokenIff(keys: seq<string>, token: Option<string>, limit: nat)
    requires limit >= 1 && Ascending(keys)
    ensures var page := PageOf(keys, token, limit);
            page.next.Some? <==> exists k :: k in keys && IsAfter(token, k) && k !in page.keys
  {
    var page, rest := PageOf(keys, token, limit), After(keys, token);
    AfterMembers(keys, token);
    AfterKeepsOrder(keys, token);
    if page.next.Some? {
      var k := rest[limit];
      assert k in rest;
      forall i | 0 <= i < limit
        ensures rest[i] != k
      {
        KeyLessTotal(rest[i], rest[limit]);
      }
      assert k in keys && IsAfter(token, k) && k !in page.keys;
    }
  }

  lemma {:induction false} AfterConcat(a: seq<string>, b: seq<string>, token: Option<string>)
    ensures After(a + b, token) == After(a, token) + After(b, token)
  {
    if a == [] {
      assert a + b == b;
    } else {
      AfterConcat(a[1..], b, token);
      ConcatHead(a, b);
      ConcatAssociative([a[0]], After(a[1..], token), After(b, token));
    }
  }

  lemma {:induction false} AfterMonotone(keys: seq<string>, t: Option<string>, u: string)
    requires IsAfter(t, u)
    ensures After(keys, Some(u)) == After(After(keys, t), Some(u))
  {
    if keys != [] {
      AfterMonotone(keys[1..], t, u);
      if KeyLess(u, keys[0]) && t.Some? {
        KeyLessTransitive(t.value, u, keys[0]);
      }
      if IsAfter(t, keys[0]) {
        assert ([keys[0]] + After(keys[1..], t))[1..] == After(keys[1..], t);
      }
    }
  }

  lemma {:induction false} AfterDrops(keys: seq<string>, u: string)
    requires u in keys
    ensures |After(keys, Some(u))| < |keys|
  {
    if keys[0] == u {
      KeyLessTotal(u, u);
    } else {
      AfterDrops(keys[1..], u);
    }
  }

  /** Keys after a later token may be sought among the keys after an earlier one. */
  lemma AfterAgain(keys: seq<string>, token: Option<string>, u: string)
    requires u in After(keys, token)
    ensures After(keys, Some(u)) == After(After(keys, token), Some(u)) && IsAfter(token, u)
  {
    AfterMembers(keys, token);
    AfterMonotone(keys, token, u);
  }

  /** Each token leaves fewer keys than the one before, on any list. */
  lemma PageProgress(keys: seq<string>, token: Option<string>, limit: nat)
    requires limit >= 1 && PageOf(keys, token, limit).next.Some?
    ensures |After(keys, PageOf(keys, token, limit).next)| < |After(keys, token)|
  {
    var rest := After(keys, token);
    var u := rest[limit - 1];
    AfterAgain(keys, token, u);
    AfterDrops(rest, u);
  }

  /** What `list_blobs` returns when pages of `limit` are drained from the token on. */
  function Drain(keys: seq<string>, token: Option<string>, limit: nat): seq<string>
    requires limit >= 1
    decreases |After(keys, token)|
  {
    var page := PageOf(keys, token, limit);
    if page.next.None? then page.keys else PageProgress(keys, token, limit); page.keys + Drain(keys, page.next, limit)
  }

  lemma {:induction false} AfterAscending(keys: seq<string>, i: nat)
    requires Ascending(keys) && i < |keys|
    ensures After(keys, Some(keys[i])) == keys[i + 1..]
  {
    assert keys == keys[..i + 1] + keys[i + 1..];
    AfterConcat(keys[..i + 1], keys[i + 1..], Some(keys[i]));
    forall j | 0 <= j <= i
      ensures !KeyLess(keys[i], keys[j])
    {
      KeyLessTotal(keys[i], keys[j]);
    }
    AfterNone(keys[..i + 1], Some(keys[i]));
    AfterAll(keys[i + 1..], Some(keys[i]));
  }

  lemma {:induction false} AfterNone(keys: seq<string>, token: Option<string>)
    requires forall k | k in keys :: !IsAfter(token, k)
    ensures After(keys, token) == []
  {
    if keys != [] {
      AfterNone(keys[1..], token);
    }
  }

  lemma {:induction false} AfterAll(keys: seq<string>, token: Option<string>)
    requires forall k | k in keys :: IsAfter(token, k)
    ensures After(keys, token) == keys
  {
    if keys != [] {
      AfterAll(keys[1..], token);
    }
  }

  /** On an ascending list a full page leaves exactly the keys it did not return. */
  lemma AfterPage(keys: seq<string>, token: Option<string>, limit: nat)
    requires limit >= 1 && Ascending(After(keys, token)) && |After(keys, token)| > limit
    ensures var rest := After(keys, token);
            After(keys, Some(rest[limit - 1])) == rest[limit..] && Ascending(rest[limit..])
  {
    var rest := After(keys, token);
    PageTail(rest, limit);
    AfterAgain(keys, token, rest[limit - 1]);
  }

  lemma PageTail(rest: seq<string>, limit: nat)
    requires 1 <= limit <= |rest| && Ascending(rest)
    ensures After(rest, Some(rest[limit - 1])) == rest[limit..] && Ascending(rest[limit..])
  {
    AfterAscending(rest, limit - 1);
    SplitAscending(rest, limit);
  }

  lemma SplitAscending(keys: seq<string>, n: nat)
    requires n <= |keys| && Ascending(keys)
    ensures Ascending(keys[..n]) && Ascending(keys[n..])
  {
    assert keys == keys[..n] + keys[n..];
    AscendingParts(keys[..n], keys[n..]);
  }

  /** On an ascending list draining gives back exactly what the token leaves. */
  lemma {:induction false} DrainAscending(keys: seq<string>, token: Option<string>, limit: nat)
    requires limit >= 1 && Ascending(After(keys, token))
    ensures Drain(keys, token, limit) == After(keys, token)
    decreases |After(keys, token)|
  {
    var rest := After(keys, token);
    if |rest| > limit {
      PageProgress(keys, token, limit);
      AfterPage(keys, token, limit);
      DrainAscending(keys, Some(rest[limit - 1]), limit);
      assert rest == rest[..limit] + rest[limit..];
    }
  }

  /** A drain that is complete and in byte order: every key exactly once, ascending. */
  ghost predicate ExactlyOnceAscending(drained: seq<string>, keys: seq<string>) {
    Ascending(drained) && multiset(drained) == multiset(keys)
  }

  lemma DrainAfterToken(keys: seq<string>, token: Option<string>, limit: nat, k: string)
    requires limit >= 1 && k in Drain(keys, token, limit)
    ensures k in keys && IsAfter(token, k)
    decreases |After(keys, token)|
  {
    var page := PageOf(keys, token, limit);
    AfterMembers(keys, token);
    if k !in page.keys {
      PageProgress(keys, token, limit);
      DrainAfterToken(keys, page.next, limit, k);
      if token.Some? {
        assert page.next.value in After(keys, token);
        KeyLessTransitive(token.value, page.next.value, k);
      }
    }
  }

  /** If a page and its tail drain exactly, the keys the page left over are exactly those after its token. */
  lemma ExactPage(rest: seq<string>, tail: seq<string>, limit: nat)
    requires 1 <= limit < |rest| && ExactlyOnceAscending(rest[..limit] + tail, rest)
    requires forall k | k in tail :: KeyLess(rest[limit - 1], k)
    ensures ExactlyOnceAscending(tail, rest[limit..]) && Ascending(rest[..limit])
    ensures After(rest, Some(rest[limit - 1])) == rest[limit..]
    ensures forall k | k in rest[limit..] :: KeyLess(rest[limit - 1], k)
  {
    hide After;
    var front := rest[..limit];
    AscendingParts(front, tail);
    assert rest == front + rest[limit..];
    SameTail(front, tail, rest[limit..]);
    forall k | k in rest[limit..]
      ensures KeyLess(rest[limit - 1], k)
    {
      assert k in multiset(tail);
    }
    RestAfter(rest, limit);
  }

  /** Whatever the page size, only an ascending list drains completely and in order. */
  lemma {:induction false} ExactDrainIsAscending(keys: seq<string>, token: Option<string>, limit: nat)
    requires limit >= 1
    requires ExactlyOnceAscending(Drain(keys, token, limit), After(keys, token))
    ensures Ascending(After(keys, token))
    decreases |After(keys, token)|
  {
    var rest := After(keys, token);
    if |rest| > limit {
      var u := rest[limit - 1];
      PageProgress(keys, token, limit);
      DrainBeyond(keys, u, limit);
      ExactPage(rest, Drain(keys, Some(u), limit), limit);
      AfterAgain(keys, token, u);
      ExactDrainIsAscending(keys, Some(u), limit);
      JoinPage(rest, limit);
    }
  }

  lemma DrainBeyond(keys: seq<string>, u: string, limit: nat)
    requires limit >= 1
    ensures forall k | k in Drain(keys, Some(u), limit) :: KeyLess(u, k)
  {
    forall k | k in Drain(keys, Some(u), limit)
      ensures KeyLess(u, k)
    {
      DrainAfterToken(keys, Some(u), limit, k);
    }
  }

  lemma JoinPage(rest: seq<string>, limit: nat)
    requires 1 <= limit <= |rest| && Ascending(rest[..limit]) && Ascending(rest[limit..])
    requires forall k | k in rest[limit..] :: KeyLess(rest[limit - 1], k)
    ensures Ascending(rest)
  {
    AscendingJoin(rest[..limit], rest[limit..]);
    assert rest == rest[..limit] + rest[limit..];
  }

  lemma SameTail(front: seq<string>, a: seq<string>, b: seq<string>)
    requires multiset(front + a) == multiset(front + b)
    ensures multiset(a) == multiset(b)
  {
    assert multiset(front + a) == multiset(front) + multiset(a);
    assert multiset(front + b) == multiset(front) + multiset(b);
    forall k
      ensures multiset(a)[k] == multiset(b)[k]
    {
      assert (multiset(front) + multiset(a))[k] == (multiset(front) + multiset(b))[k];
    }
  }

  lemma AscendingParts(a: seq<string>, b: seq<string>)
    requires Ascending(a + b)
    ensures Ascending(a) && Ascending(b)
  {
    forall i, j | 0 <= i < j < |a|
      ensures KeyLess(a[i], a[j])
    {
      assert (a + b)[i] == a[i] && (a + b)[j] == a[j];
    }
    forall i, j | 0 <= i < j < |b|
      ensures KeyLess(b[i], b[j])
    {
      assert (a + b)[|a| + i] == b[i] && (a + b)[|a| + j] == b[j];
    }
  }

  lemma AscendingJoin(a: seq<string>, b: seq<string>)
    requires Ascending(a) && Ascending(b) && |a| > 0
    requires forall k | k in b :: KeyLess(a[|a| - 1], k)
    ensures Ascending(a + b)
  {
    forall i, j | 0 <= i < |a| && 0 <= j < |b|
      ensures KeyLess(a[i], b[j])
    {
      assert b[j] in b;
      if i < |a| - 1 {
        KeyLessTransitive(a[i], a[|a| - 1], b[j]);
      }
    }
  }

  lemma PartAfter(front: seq<string>, back: seq<string>)
    requires front != [] && Ascending(front) && forall k | k in back :: KeyLess(front[|front| - 1], k)
    ensures After(front + back, Some(front[|front| - 1])) == back
  {
    var u := front[|front| - 1];
    AfterConcat(front, back, Some(u));
    AfterAscending(front, |front| - 1);
    AfterAll(back, Some(u));
    assert After(front, Some(u)) == [] && [] + back == back;
  }

  lemma RestAfter(rest: seq<string>, limit: nat)
    requires 1 <= limit < |rest| && Ascending(rest[..limit])
    requires forall k | k in rest[limit..] :: KeyLess(rest[limit - 1], k)
    ensures After(rest, Some(rest[limit - 1])) == rest[limit..]
  {
    hide After, Ascending, KeyLess;
    CutAt(rest, limit);
    PartAfter(rest[..limit], rest[limit..]);
  }

  /** The exact condition, for each page size on its own. */
  lemma DrainExactIff(keys: seq<string>, limit: nat)
    requires limit >= 1
    ensures ExactlyOnceAscending(Drain(keys, None, limit), keys) <==> Ascending(keys)
    ensures Ascending(keys) ==> Drain(keys, None, limit) == keys
  {
    AfterAll(keys, None);
    if Ascending(keys) {
      DrainAscending(keys, None, limit);
    }
    if ExactlyOnceAscending(Drain(keys, None, limit), keys) {
      ExactDrainIsAscending(keys, None, limit);
    }
  }

  // ---- Draining a store that changes between pages ----

  /** Page i is cut from snapshot i; the drain is finished when a page carries no token. */
  datatype SnapshotDrain = Finished(keys: seq<string>) | Unfinished

  function DrainSnapshots(snapshots: seq<seq<string>>, token: Option<string>, limit: nat): SnapshotDrain
    requires limit >= 1
    decreases |snapshots|
  {
    if snapshots == [] then Unfinished else
    var page := PageOf(snapshots[0], token, limit);
    if page.next.None? then Finished(page.keys) else
    match DrainSnapshots(snapshots[1..], page.next, limit)
    case Unfinished => Unfinished
    case Finished(keys) => Finished(page.keys + keys)
  }

  lemma {:induction false} AfterKeepsOrder(keys: seq<string>, token: Option<string>)
    requires Ascending(keys)
    ensures Ascending(After(keys, token))
  {
    if keys != [] {
      AfterKeepsOrder(keys[1..], token);
      AfterMembers(keys[1..], token);
      AscendingParts([keys[0]], keys[1..]) by { assert keys == [keys[0]] + keys[1..]; }
      if IsAfter(token, keys[0]) {
        forall k | k in After(keys[1..], token)
          ensures KeyLess(keys[0], k)
        {
          var i :| 1 <= i < |keys| && keys[i] == k;
        }
        AscendingJoin([keys[0]], After(keys[1..], token));
      }
    }
  }

  /**
    A drain over changing snapshots, once finished, is strictly ascending (so nothing is repeated),
    holds every key after the token that was in all snapshots, and holds only keys that some
    snapshot had.
   */
  lemma {:induction false} SnapshotDrainFacts(snapshots: seq<seq<string>>, token: Option<string>, limit: nat)
    requires limit >= 1 && forall s | s in snapshots :: Ascending(s)
    requires DrainSnapshots(snapshots, token, limit).Finished?
    ensures var d := DrainSnapshots(snapshots, token, limit).keys;
            && Ascending(d)
            && (forall k | k in d :: IsAfter(token, k) && exists s | s in snapshots :: k in s)
            && (forall k | IsAfter(token, k) && (forall s | s in snapshots :: k in s) :: k in d)
    decreases |snapshots|
  {
    var now, page := snapshots[0], PageOf(snapshots[0], token, limit);
    var rest := After(now, token);
    assert now in snapshots;
    AfterKeepsOrder(now, token);
    AfterMembers(now, token);
    if page.next.Some? {
      var later, u := snapshots[1..], page.next.value;
      SnapshotDrainFacts(later, page.next, limit);
      var tail := DrainSnapshots(later, page.next, limit).keys;
      SplitAscending(rest, limit);
      AscendingJoin(page.keys, tail);
      assert u in rest;
      assert forall s | s in later :: s in snapshots;
      forall k | k in tail
        ensures IsAfter(token, k) && exists s | s in snapshots :: k in s
      {
        LaterStillAfter(token, u, k);
        var s :| s in later && k in s;
        assert s in snapshots;
      }
      forall k | IsAfter(token, k) && (forall s | s in snapshots :: k in s)
        ensures k in page.keys + tail
      {
        if k !in page.keys {
          LaterThanPage(rest, limit, k);
        }
      }
    }
  }

  lemma LaterStillAfter(token: Option<string>, u: string, k: string)
    requires IsAfter(token, u) && KeyLess(u, k)
    ensures IsAfter(token, k)
  {
    if token.Some? {
      KeyLessTransitive(token.value, u, k);
    }
  }

  lemma LaterThanPage(rest: seq<string>, limit: nat, k: string)
    requires 1 <= limit < |rest| && Ascending(rest) && k in rest && k !in rest[..limit]
    ensures KeyLess(rest[limit - 1], k)
  {
    var i :| 0 <= i < |rest| && rest[i] == k;
    assert i >= limit by {
      assert forall j | 0 <= j < limit :: rest[j] in rest[..limit];
    }
  }
}
