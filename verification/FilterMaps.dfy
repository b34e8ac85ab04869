/** Keeping and mapping the elements of a sequence, in order. */
module FilterMaps {
  import opened Wrappers
  import opened Sequences

  function FilterMap<A, B>(f: A -> Option<B>, s: seq<A>): seq<B> {
    if s == [] then []
    else match f(s[0])
      case None => FilterMap(f, s[1..])
      case Some(b) => [b] + FilterMap(f, s[1..])
  }

  lemma {:induction false} FilterMapConcat<A, B>(f: A -> Option<B>, s: seq<A>, t: seq<A>)
    ensures FilterMap(f, s + t) == FilterMap(f, s) + FilterMap(f, t)
  {
    if s == [] {
      assert s + t == t;
    } else {
      FilterMapConcat(f, s[1..], t);
      ConcatHead(s, t);
      if f(s[0]).Some? {
        ConcatAssociative([f(s[0]).value], FilterMap(f, s[1..]), FilterMap(f, t));
      }
    }
  }

  lemma {:induction false} FilterMapMembers<A, B>(f: A -> Option<B>, s: seq<A>)
    ensures forall b :: b in FilterMap(f, s) <==> exists a | a in s :: f(a) == Some(b)
  {
    if s != [] {
      FilterMapMembers(f, s[1..]);
      assert s == [s[0]] + s[1..];
      forall b
        ensures b in FilterMap(f, s) <==> exists a | a in s :: f(a) == Some(b)
      {
        if b in FilterMap(f, s) && !(exists a | a in s[1..] :: f(a) == Some(b)) {
          assert s[0] in s && f(s[0]) == Some(b);
        }
        if a :| a in s && f(a) == Some(b) {
          assert a == s[0] || a in s[1..];
        }
      }
    }
  }

  lemma Origin<A, B>(f: A -> Option<B>, s: seq<A>, b: B) returns (a: A)
    requires b in FilterMap(f, s)
    ensures a in s && f(a) == Some(b)
  {
    FilterMapMembers(f, s);
    a :| a in s && f(a) == Some(b);
  }

  ghost predicate Distinct<A>(s: seq<A>) {
    forall i, j :: 0 <= i < j < |s| ==> s[i] != s[j]
  }

  lemma {:induction false} FilterMapDistinct<A, B>(f: A -> Option<B>, s: seq<A>)
    requires forall i, j :: 0 <= i < j < |s| ==> f(s[i]).None? || f(s[i]) != f(s[j])
    ensures Distinct(FilterMap(f, s))
  {
    if s != [] {
      var rest := s[1..];
      FilterMapDistinct(f, rest);
      FilterMapMembers(f, rest);
      forall b | b in FilterMap(f, rest)
        ensures f(s[0]) != Some(b)
      {
        var a := Origin(f, rest, b);
        var i :| 0 <= i < |rest| && rest[i] == a;
        assert s[i + 1] == a;
      }
    }
  }
}
