/** Lists of numbers without repeats, and their elements. */
module Lists {

  predicate Distinct(s: seq<nat>) {
    forall i, j :: 0 <= i < j < |s| ==> s[i] != s[j]
  }

  function Elements(s: seq<nat>): set<nat> {
    set e | e in s
  }

  /** s without its first e. */
  function Drop(s: seq<nat>, e: nat): seq<nat> {
    if s == [] then [] else if s[0] == e then s[1..] else [s[0]] + Drop(s[1..], e)
  }

  /** The elements of s outside r, in order. */
  function Without(s: seq<nat>, r: set<nat>): seq<nat> {
    if s == [] then [] else (if s[0] in r then [] else [s[0]]) + Without(s[1..], r)
  }

  lemma {:induction false} WithoutConcat(s: seq<nat>, t: seq<nat>, r: set<nat>)
    ensures Without(s + t, r) == Without(s, r) + Without(t, r)
  {
    if s == [] {
      assert s + t == t;
    } else {
      assert (s + t)[1..] == s[1..] + t;
      WithoutConcat(s[1..], t, r);
    }
  }

  lemma {:induction false} WithoutTwice(s: seq<nat>, r: set<nat>, d: set<nat>)
    ensures Without(s, r + d) == Without(Without(s, r), d)
  {
    if s != [] {
      WithoutTwice(s[1..], r, d);
      WithoutConcat(if s[0] in r then [] else [s[0]], Without(s[1..], r), d);
    }
  }

  lemma {:induction false} WithoutNone(s: seq<nat>, r: set<nat>)
    requires forall e :: e in s ==> e !in r
    ensures Without(s, r) == s
  {
    if s != [] { WithoutNone(s[1..], r); }
  }

  lemma {:induction false} WithoutAll(s: seq<nat>, r: set<nat>)
    requires forall e :: e in s ==> e in r
    ensures Without(s, r) == []
  {
    if s != [] { WithoutAll(s[1..], r); }
  }

  lemma {:induction false} WithoutMembers(s: seq<nat>, r: set<nat>, e: nat)
    ensures e in Without(s, r) <==> e in s && e !in r
  {
    if s != [] { WithoutMembers(s[1..], r, e); }
  }

  lemma {:induction false} WithoutDistinct(s: seq<nat>, r: set<nat>)
    requires Distinct(s)
    ensures Distinct(Without(s, r))
  {
    if s != [] {
      WithoutDistinct(s[1..], r);
      WithoutMembers(s[1..], r, s[0]);
      var w := Without(s[1..], r);
      if s[0] !in r { assert s[0] !in s[1..]; assert Without(s, r) == [s[0]] + w; }
    }
  }
}
