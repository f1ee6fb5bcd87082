/** A circular doubly linked list held in two maps, with node 0 as the sentinel. */
module LruRing {

  /** Node number k on the way round: the sentinel, the list, and the sentinel again. */
  function Nth(l: seq<nat>, k: nat): nat {
    if 1 <= k <= |l| then l[k - 1] else 0
  }

  predicate Linked(next: map<nat, nat>, prev: map<nat, nat>, l: seq<nat>, k: nat) {
    var a, b := Nth(l, k), Nth(l, k + 1);
    a in next && b in prev && next[a] == b && prev[b] == a
  }

  /** The pointers form one ring through the sentinel that spells out l. */
  ghost predicate Ring(next: map<nat, nat>, prev: map<nat, nat>, l: seq<nat>) {
    forall k: nat :: k <= |l| ==> Linked(next, prev, l, k)
  }

  /** No node twice, and the sentinel not among them. */
  predicate Nodes(l: seq<nat>) {
    && (forall i :: 0 <= i < |l| ==> l[i] != 0)
    && (forall i, j :: 0 <= i < j < |l| ==> l[i] != l[j])
  }

  lemma NthDistinct(l: seq<nat>, i: nat, j: nat)
    requires Nodes(l) && i < j && (j <= |l| || (1 <= i && j <= |l| + 1))
    ensures Nth(l, i) != Nth(l, j)
  {
  }

  function RemoveAt(l: seq<nat>, i: nat): seq<nat>
    requires i < |l|
  {
    l[..i] + l[i + 1..]
  }

  function InsertAt(l: seq<nat>, i: nat, e: nat): seq<nat>
    requires i <= |l|
  {
    l[..i] + [e] + l[i..]
  }

  lemma NthRemove(l: seq<nat>, i: nat, k: nat)
    requires i < |l|
    ensures Nth(RemoveAt(l, i), k) == if k <= i then Nth(l, k) else Nth(l, k + 1)
  {
  }

  lemma NthInsert(l: seq<nat>, i: nat, e: nat, k: nat)
    requires i <= |l|
    ensures Nth(InsertAt(l, i, e), k) == if k <= i then Nth(l, k) else if k == i + 1 then e else Nth(l, k - 1)
  {
  }

  /** Unlinking the node at index i. */
  lemma RingRemove(next: map<nat, nat>, prev: map<nat, nat>, l: seq<nat>, i: nat)
    requires Ring(next, prev, l) && Nodes(l) && i < |l|
    ensures var p, n := Nth(l, i), Nth(l, i + 2);
            && l[i] in next && l[i] in prev && next[l[i]] == n && prev[l[i]] == p
            && Ring(next[p := n], prev[n := p], RemoveAt(l, i)) && Nodes(RemoveAt(l, i))
  {
    assert Linked(next, prev, l, i) && Linked(next, prev, l, i + 1);
    var p, n, l' := Nth(l, i), Nth(l, i + 2), RemoveAt(l, i);
    var next', prev' := next[p := n], prev[n := p];
    forall k: nat | k <= |l'|
      ensures Linked(next', prev', l', k)
    {
      RemoveLink(next, prev, l, i, k);
    }
  }

  lemma RemoveLink(next: map<nat, nat>, prev: map<nat, nat>, l: seq<nat>, i: nat, k: nat)
    requires Ring(next, prev, l) && Nodes(l) && i < |l| && k < |l|
    ensures var p, n := Nth(l, i), Nth(l, i + 2); Linked(next[p := n], prev[n := p], RemoveAt(l, i), k)
  {
    hide Nth, RemoveAt, Nodes;
    NthRemove(l, i, k);
    NthRemove(l, i, k + 1);
    if k < i {
      assert Linked(next, prev, l, k);
      NthDistinct(l, k, i);
      NthDistinct(l, k + 1, i + 2);
    } else if k > i {
      assert Linked(next, prev, l, k + 1);
      NthDistinct(l, i, k + 1);
      NthDistinct(l, i + 2, k + 2);
    }
  }

  /** Linking a new node after node number i. */
  lemma RingInsert(next: map<nat, nat>, prev: map<nat, nat>, l: seq<nat>, i: nat, e: nat)
    requires Ring(next, prev, l) && Nodes(l) && i <= |l| && e != 0 && e !in l
    ensures var p, n := Nth(l, i), Nth(l, i + 1);
            && p in next && next[p] == n && n in prev && prev[n] == p
            && Ring(next[e := n][p := e], prev[e := p][n := e], InsertAt(l, i, e)) && Nodes(InsertAt(l, i, e))
  {
    assert Linked(next, prev, l, i);
    var p, n, l' := Nth(l, i), Nth(l, i + 1), InsertAt(l, i, e);
    var next', prev' := next[e := n][p := e], prev[e := p][n := e];
    forall k: nat | k <= |l'|
      ensures Linked(next', prev', l', k)
    {
      InsertLink(next, prev, l, i, e, k);
    }
  }

  lemma NthOther(l: seq<nat>, k: nat, e: nat)
    requires e != 0 && e !in l
    ensures Nth(l, k) != e
  {
  }

  lemma InsertLink(next: map<nat, nat>, prev: map<nat, nat>, l: seq<nat>, i: nat, e: nat, k: nat)
    requires Ring(next, prev, l) && Nodes(l) && i <= |l| && e != 0 && e !in l && k <= |l| + 1
    ensures var p, n := Nth(l, i), Nth(l, i + 1);
            Linked(next[e := n][p := e], prev[e := p][n := e], InsertAt(l, i, e), k)
  {
    hide Nth, InsertAt, Nodes;
    NthInsert(l, i, e, k);
    NthInsert(l, i, e, k + 1);
    NthOther(l, k, e);
    NthOther(l, k + 1, e);
    NthOther(l, i, e);
    NthOther(l, i + 1, e);
    if k < i {
      assert Linked(next, prev, l, k);
      NthDistinct(l, k, i);
      NthDistinct(l, k + 1, i + 1);
    } else if k > i + 1 {
      assert Linked(next, prev, l, k - 1);
      NthOther(l, k - 1, e);
      NthDistinct(l, i, k - 1);
      NthDistinct(l, i + 1, k);
    }
  }
}
