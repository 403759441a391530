/** Rows of chains read in iteration order: slot by slot, each chain from its head. */
module Chains {

  function FlatFrom<N>(chains: seq<seq<N>>, s: nat): seq<N>
    requires s <= |chains|
    decreases |chains| - s
  {
    if s == |chains| then [] else chains[s] + FlatFrom(chains, s + 1)
  }

  function Flat<N>(chains: seq<seq<N>>): seq<N> {
    FlatFrom(chains, 0)
  }

  function Before<N>(chains: seq<seq<N>>, s: nat): seq<N>
    requires s <= |chains|
  {
    if s == 0 then [] else Before(chains, s - 1) + chains[s - 1]
  }

  function Without<N>(all: seq<N>, p: nat): seq<N>
    requires p < |all|
  {
    all[..p] + all[p + 1..]
  }

  ghost predicate Distinct<N>(c: seq<N>) {
    c == [] || (c[0] !in c[1..] && Distinct(c[1..]))
  }

  ghost predicate Suffix<N>(rest: seq<N>, all: seq<N>) {
    |rest| <= |all| && all[|all| - |rest|..] == rest
  }

  lemma {:induction false} DistinctApart<N>(c: seq<N>, i: nat, j: nat)
    requires i < j < |c| && Distinct(c)
    ensures c[i] != c[j]
  {
    if i > 0 {
      DistinctApart(c[1..], i - 1, j - 1);
    } else {
      assert c[j] == c[1..][j - 1];
    }
  }

  lemma {:induction false} AllApart<N>(c: seq<N>)
    requires forall i, j :: 0 <= i < j < |c| ==> c[i] != c[j]
    ensures Distinct(c)
  {
    if c != [] {
      AllApart(c[1..]);
    }
  }

  lemma {:induction false} WithoutMembers<N>(c: seq<N>, i: nat)
    requires i < |c| && Distinct(c)
    ensures c[i] !in Without(c, i)
    ensures forall n :: n in c && n != c[i] ==> n in Without(c, i)
    ensures forall n :: n in Without(c, i) ==> n in c
    ensures Distinct(Without(c, i))
  {
    if i > 0 {
      var d := c[1..];
      WithoutMembers(d, i - 1);
      assert Without(c, i) == [c[0]] + Without(d, i - 1);
    } else {
      assert Without(c, 0) == c[1..];
    }
  }

  lemma {:induction false} DistinctJoin<N>(a: seq<N>, b: seq<N>)
    requires Distinct(a) && Distinct(b) && forall n :: n in a ==> n !in b
    ensures Distinct(a + b)
  {
    if a == [] {
      assert a + b == b;
    } else {
      DistinctJoin(a[1..], b);
      assert (a + b)[1..] == a[1..] + b;
    }
  }

  lemma {:induction false} FlatSplit<N>(chains: seq<seq<N>>, s: nat)
    requires s <= |chains|
    ensures Flat(chains) == Before(chains, s) + FlatFrom(chains, s)
  {
    if s > 0 {
      FlatSplit(chains, s - 1);
      assert Before(chains, s) + FlatFrom(chains, s)
          == Before(chains, s - 1) + (chains[s - 1] + FlatFrom(chains, s));
    }
  }

  lemma {:induction false} FlatFromUnchanged<N>(chains: seq<seq<N>>, s: nat, c: seq<N>, t: nat)
    requires s < t <= |chains|
    ensures FlatFrom(chains[s := c], t) == FlatFrom(chains, t)
    decreases |chains| - t
  {
    if t < |chains| {
      FlatFromUnchanged(chains, s, c, t + 1);
    }
  }

  lemma {:induction false} BeforeUnchanged<N>(chains: seq<seq<N>>, s: nat, c: seq<N>, t: nat)
    requires t <= s < |chains|
    ensures Before(chains[s := c], t) == Before(chains, t)
  {
    if t > 0 {
      BeforeUnchanged(chains, s, c, t - 1);
    }
  }

  /** Replacing one chain replaces its stretch of the order and nothing else. */
  lemma {:induction false} FlatReplace<N>(chains: seq<seq<N>>, s: nat, c: seq<N>)
    requires s < |chains|
    ensures Flat(chains) == Before(chains, s) + (chains[s] + FlatFrom(chains, s + 1))
    ensures Flat(chains[s := c]) == Before(chains, s) + (c + FlatFrom(chains, s + 1))
  {
    FlatSplit(chains, s);
    FlatSplit(chains[s := c], s);
    BeforeUnchanged(chains, s, c, s);
    FlatFromUnchanged(chains, s, c, s + 1);
  }

  /** Unlinking one node takes exactly that node out of the order. */
  lemma {:induction false} FlatRemove<N>(chains: seq<seq<N>>, s: nat, i: nat) returns (p: nat)
    requires s < |chains| && i < |chains[s]|
    ensures p < |Flat(chains)| && Flat(chains)[p] == chains[s][i]
    ensures Flat(chains[s := Without(chains[s], i)]) == Without(Flat(chains), p)
  {
    var c := chains[s];
    var u, w := Before(chains, s), FlatFrom(chains, s + 1);
    FlatReplace(chains, s, Without(c, i));
    p := |u| + i;
    assert (u + (c + w))[..p] == u + c[..i];
    assert (u + (c + w))[p + 1..] == c[i + 1..] + w;
    assert u + (Without(c, i) + w) == (u + c[..i]) + (c[i + 1..] + w);
  }

  /** Linking a node at the head of a chain puts exactly that node into the order. */
  lemma {:induction false} FlatInsert<N>(chains: seq<seq<N>>, s: nat, n: N) returns (p: nat)
    requires s < |chains|
    ensures p == |Before(chains, s)| <= |Flat(chains)|
    ensures Flat(chains[s := [n] + chains[s]]) == Flat(chains)[..p] + [n] + Flat(chains)[p..]
  {
    var u, w := Before(chains, s), chains[s] + FlatFrom(chains, s + 1);
    FlatReplace(chains, s, [n] + chains[s]);
    p := |u|;
    assert (u + w)[..p] == u && (u + w)[p..] == w;
    assert ([n] + chains[s]) + FlatFrom(chains, s + 1) == [n] + w;
  }

  /** Every node of every chain is in the order... */
  lemma {:induction false} InOrder<N>(chains: seq<seq<N>>, s: nat, t: nat, n: N)
    requires s <= t < |chains| && n in chains[t]
    ensures n in FlatFrom(chains, s)
    decreases t - s
  {
    if s < t {
      InOrder(chains, s + 1, t, n);
    }
  }

  /** ...and nothing else is. */
  lemma {:induction false} OrderedInChain<N>(chains: seq<seq<N>>, s: nat, n: N) returns (t: nat)
    requires s <= |chains| && n in FlatFrom(chains, s)
    ensures s <= t < |chains| && n in chains[t]
    decreases |chains| - s
  {
    if n in chains[s] {
      t := s;
    } else {
      t := OrderedInChain(chains, s + 1, n);
    }
  }

  lemma {:induction false} FlatEmpty<N>(chains: seq<seq<N>>, s: nat)
    requires s <= |chains| && forall t :: 0 <= t < |chains| ==> chains[t] == []
    ensures FlatFrom(chains, s) == []
    decreases |chains| - s
  {
    if s < |chains| {
      FlatEmpty(chains, s + 1);
    }
  }

  /** A non-empty suffix of the order starts at some node of some chain. */
  lemma {:induction false} SuffixStart<N>(chains: seq<seq<N>>, t: nat, rest: seq<N>) returns (s: nat, i: nat)
    requires t <= |chains| && rest != [] && Suffix(rest, FlatFrom(chains, t))
    ensures t <= s < |chains| && i < |chains[s]|
    ensures rest == chains[s][i..] + FlatFrom(chains, s + 1)
    decreases |chains| - t
  {
    var tail := FlatFrom(chains, t + 1);
    var all := chains[t] + tail;
    if |rest| <= |tail| {
      assert all[|all| - |rest|..] == tail[|tail| - |rest|..];
      s, i := SuffixStart(chains, t + 1, rest);
    } else {
      s, i := t, |all| - |rest|;
    }
  }

  /** Taking a node that is not ahead out of the order leaves what is ahead where it was. */
  lemma {:induction false} SuffixSurvives<N>(rest: seq<N>, all: seq<N>, p: nat)
    requires Suffix(rest, all) && p < |all| && all[p] !in rest
    ensures Suffix(rest, Without(all, p))
  {
    var k := |all| - |rest|;
    assert forall i :: k <= i < |all| ==> all[i] == all[k..][i - k];
    var less := Without(all, p);
    assert less[|less| - |rest|..] == all[|all| - |rest|..];
  }

  lemma {:induction false} SuffixMember<N>(rest: seq<N>, all: seq<N>, j: nat)
    requires Suffix(rest, all) && j < |rest|
    ensures rest[j] in all
  {
    assert all[|all| - |rest|..][j] == all[|all| - |rest| + j];
  }

  lemma {:induction false} SuffixTail<N>(rest: seq<N>, all: seq<N>)
    requires Suffix(rest, all) && rest != []
    ensures Suffix(rest[1..], all)
  {
    assert all[|all| - |rest| + 1..] == all[|all| - |rest|..][1..];
  }

  // ---------------------------------------------------------------------------------- walking the order

  /** What the caller of an iterator does next: takes the next item, or removes the item at a place of the
      order. */
  datatype Move = Take | Drop(at: nat)

  /** An iteration under way: the order as it is now, what has been handed out, and what is ahead. */
  datatype Walk<N> = Walk(order: seq<N>, returned: seq<N>, ahead: seq<N>)

  /** Taking is always allowed; removing only what has been handed out. */
  ghost predicate Allowed<N>(w: Walk<N>, move: Move) {
    move.Drop? ==> move.at < |w.order| && w.order[move.at] in w.returned
  }

  function Moved<N>(w: Walk<N>, move: Move): Walk<N>
    requires move.Drop? ==> move.at < |w.order|
  {
    match move
    case Take => if w.ahead == [] then w else Walk(w.order, w.returned + [w.ahead[0]], w.ahead[1..])
    case Drop(p) => Walk(Without(w.order, p), w.returned, w.ahead)
  }

  /** `end` is reached from `w` by allowed moves. */
  ghost predicate Leads<N>(w: Walk<N>, moves: seq<Move>, end: Walk<N>)
    decreases |moves|
  {
    if moves == [] then w == end
    else Allowed(w, moves[0]) && Leads(Moved(w, moves[0]), moves[1..], end)
  }

  function Takes(moves: seq<Move>): nat {
    if moves == [] then 0 else (if moves[0] == Take then 1 else 0) + Takes(moves[1..])
  }

  /** What every allowed move keeps, `all` being the order the iteration began with. */
  ghost predicate OnTheWay<N>(w: Walk<N>, all: seq<N>) {
    && w.returned + w.ahead == all
    && Suffix(w.ahead, w.order)
    && Distinct(all)
    && (forall n :: n in w.order ==> n in all)
  }

  lemma {:induction false} DistinctSplit<N>(a: seq<N>, b: seq<N>, n: N)
    requires Distinct(a + b) && n in a
    ensures n !in b
  {
    var i :| 0 <= i < |a| && a[i] == n;
    forall j | 0 <= j < |b| ensures b[j] != n {
      DistinctApart(a + b, i, |a| + j);
    }
  }

  lemma {:induction false} MoveKeeps<N>(w: Walk<N>, move: Move, all: seq<N>)
    requires OnTheWay(w, all) && Allowed(w, move)
    ensures OnTheWay(Moved(w, move), all)
  {
    match move
    case Take =>
      if w.ahead != [] {
        SuffixTail(w.ahead, w.order);
        assert w.returned + w.ahead == (w.returned + [w.ahead[0]]) + w.ahead[1..];
      }
    case Drop(p) =>
      DistinctSplit(w.returned, w.ahead, w.order[p]);
      SuffixSurvives(w.ahead, w.order, p);
  }

  /** However items that were handed out are removed along the way, an iteration hands out what was there
      at the start, in order, each once, and what is ahead is still in the table. */
  lemma {:induction false} WalkCovers<N>(w: Walk<N>, moves: seq<Move>, end: Walk<N>, all: seq<N>)
    requires OnTheWay(w, all) && Leads(w, moves, end)
    ensures OnTheWay(end, all)
    ensures |end.returned| == if |w.returned| + Takes(moves) < |all| then |w.returned| + Takes(moves) else |all|
    ensures end.returned == all[..|end.returned|]
    decreases |moves|
  {
    assert all[..|w.returned|] == w.returned;
    if moves != [] {
      MoveKeeps(w, moves[0], all);
      WalkCovers(Moved(w, moves[0]), moves[1..], end, all);
    }
  }

  /** After as many takes as there were items, every item has been handed out. */
  lemma {:induction false} WalkEnds<N>(all: seq<N>, moves: seq<Move>, end: Walk<N>)
    requires Distinct(all) && Leads(Walk(all, [], all), moves, end)
    ensures end.ahead == [] <==> Takes(moves) >= |all|
    ensures end.ahead == [] ==> end.returned == all
  {
    assert [] + all == all;
    WalkCovers(Walk(all, [], all), moves, end, all);
  }

  /** The rule is exact: removing a node leaves what is ahead in place just when the node is not ahead. */
  lemma {:induction false} RemovalRule<N>(ahead: seq<N>, order: seq<N>, p: nat)
    requires Distinct(order) && Suffix(ahead, order) && p < |order|
    ensures Suffix(ahead, Without(order, p)) <==> order[p] !in ahead
  {
    if order[p] !in ahead {
      SuffixSurvives(ahead, order, p);
    } else {
      WithoutMembers(order, p);
    }
  }
}
