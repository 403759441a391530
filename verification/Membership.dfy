/** Groups and peers: two lists of each other that must stay converse, and a list of the groups. */
module Membership {
  import opened Chains
  import opened Payloads
  import opened Vectors

  /** The codes of `UDPERR` that these functions return. */
  datatype Err = Ok | InvalidArgument | OutOfMemory

  /** `udp_group_t`. */
  class Group {
    var next: Group?
    var peers: seq<Peer>

    constructor (next: Group?)
      ensures this.next == next && peers == []
    {
      this.next, peers := next, [];
    }
  }

  /** `udp_peer_t`. */
  class Peer {
    var groups: seq<Group>
    var outQueue: seq<Payload>

    constructor ()
      ensures groups == [] && outQueue == []
    {
      groups, outQueue := [], [];
    }
  }

  /** What the application is told. */
  datatype Event = PeerRemoved(group: Group, peer: Peer) | PeerExpired(peer: Peer) | ErrorReported

  datatype GroupCell = GroupCell(next: Group?, members: seq<Peer>)
  datatype PeerCell = PeerCell(joined: seq<Group>, queue: seq<Payload>)

  /** What is alive: groups, peers and payloads; the list of groups that starts at `head`; and what the
      application has been told. */
  datatype World = World(
    groups: map<Group, GroupCell>,
    peers: map<Peer, PeerCell>,
    head: Group?,
    list: seq<Group>,
    ledger: Ledger<Peer>,
    log: seq<Event>)

  // ------------------------------------------------------------------------------------ what is kept

  /** A group lists peers that list it, each once. */
  ghost predicate GroupSound(g: Group, groups: map<Group, GroupCell>, peers: map<Peer, PeerCell>)
    requires g in groups
  {
    && Distinct(groups[g].members)
    && forall p {:trigger p in groups[g].members} :: p in groups[g].members ==> p in peers && g in peers[p].joined
  }

  /** A peer lists groups that list it, each once. */
  ghost predicate PeerSound(p: Peer, groups: map<Group, GroupCell>, peers: map<Peer, PeerCell>)
    requires p in peers
  {
    && Distinct(peers[p].joined)
    && forall g {:trigger g in peers[p].joined} :: g in peers[p].joined ==> g in groups && p in groups[g].members
  }

  /** The two relations are converse. */
  ghost predicate Converse(groups: map<Group, GroupCell>, peers: map<Peer, PeerCell>) {
    && (forall g {:trigger GroupSound(g, groups, peers)} :: g in groups ==> GroupSound(g, groups, peers))
    && (forall p {:trigger PeerSound(p, groups, peers)} :: p in peers ==> PeerSound(p, groups, peers))
  }

  ghost predicate LinkedAt(list: seq<Group>, i: nat, groups: map<Group, GroupCell>)
    requires i < |list|
  {
    list[i] in groups && groups[list[i]].next == if i + 1 < |list| then list[i + 1] else null
  }

  /** The pointers lead through the list, and then end. */
  ghost predicate Linked(head: Group?, list: seq<Group>, groups: map<Group, GroupCell>) {
    && Distinct(list)
    && head == (if list == [] then null else list[0])
    && (forall i {:trigger LinkedAt(list, i, groups)} :: 0 <= i < |list| ==> LinkedAt(list, i, groups))
  }

  /** A peer owns the payloads in its queue. */
  ghost predicate QueueOwned(p: Peer, queue: seq<Payload>, ledger: Ledger<Peer>) {
    && (forall q {:trigger q in queue} :: q in queue ==> q in ledger)
    && (forall q {:trigger ledger[q]} :: q in ledger ==> ledger[q].owners[Queue(p)] == multiset(queue)[q])
  }

  ghost predicate Living(o: Owner<Peer>, peers: map<Peer, PeerCell>) {
    o.Queue? ==> o.holder in peers
  }

  /** No dead peer owns a payload. */
  ghost predicate NoGhosts(q: Payload, peers: map<Peer, PeerCell>, ledger: Ledger<Peer>)
    requires q in ledger
  {
    forall o {:trigger Living(o, peers)} :: o in ledger[q].owners ==> Living(o, peers)
  }

  ghost predicate Owned(peers: map<Peer, PeerCell>, ledger: Ledger<Peer>) {
    && Balanced(ledger)
    && (forall p {:trigger QueueOwned(p, peers[p].queue, ledger)} :: p in peers ==> QueueOwned(p, peers[p].queue, ledger))
    && (forall q {:trigger NoGhosts(q, peers, ledger)} :: q in ledger ==> NoGhosts(q, peers, ledger))
  }

  ghost predicate Sound(w: World) {
    Converse(w.groups, w.peers) && Linked(w.head, w.list, w.groups) && Owned(w.peers, w.ledger)
  }

  // ------------------------------------------------------------------------------------ the operations

  /** Where `x` first stands, or the length of the list. */
  function First<X(==)>(s: seq<X>, x: X): (i: nat)
    ensures i <= |s|
    ensures i < |s| ==> s[i] == x
    ensures x in s <==> i < |s|
  {
    if s == [] then 0 else if s[0] == x then 0 else 1 + First(s[1..], x)
  }

  lemma {:induction false} FirstAt<X>(s: seq<X>, x: X, i: nat)
    requires i < |s| && s[i] == x && x !in s[..i]
    ensures First(s, x) == i
  {
    if i > 0 {
      assert s[0] == s[..i][0] && s[1..][..i - 1] == s[..i][1..];
      FirstAt(s[1..], x, i - 1);
    }
  }

  /** The list without any `x`. */
  function Minus<X(==)>(s: seq<X>, x: X): (r: seq<X>)
    ensures x !in r
    ensures forall y :: y in r ==> y in s
    ensures forall y :: y in s && y != x ==> y in r
  {
    if s == [] then [] else (if s[0] == x then [] else [s[0]]) + Minus(s[1..], x)
  }

  lemma {:induction false} MinusTakesFirst<X>(s: seq<X>, x: X)
    requires Distinct(s) && x in s
    ensures Minus(s, x) == Without(s, First(s, x))
  {
    if s[0] == x {
      MinusNothing(s[1..], x);
    } else {
      MinusTakesFirst(s[1..], x);
      assert Without(s, First(s, x)) == [s[0]] + Without(s[1..], First(s[1..], x));
    }
  }

  lemma {:induction false} MinusIsWithout<X>(s: seq<X>, x: X)
    requires Distinct(s) && x in s
    ensures Minus(s, x) == Without(s, First(s, x))
    ensures Distinct(Minus(s, x)) && |Minus(s, x)| == |s| - 1
  {
    var i := First(s, x);
    MinusTakesFirst(s, x);
    WithoutMembers(s, i);
  }

  lemma {:induction false} MinusNothing<X>(s: seq<X>, x: X)
    requires x !in s
    ensures Minus(s, x) == s
  {
    if s != [] {
      MinusNothing(s[1..], x);
    }
  }

  /** `udp_peer_destroy`. */
  ghost function Expired(w: World, p: Peer): World
    requires p in w.peers
  {
    w.(peers := w.peers - {p},
       ledger := ReleasedAll(w.ledger, w.peers[p].queue, Queue(p)),
       log := w.log + [PeerExpired(p)])
  }

  /** The pair is taken apart: the peer leaves the group's list, the application is told, and the group leaves
      the peer's list. */
  ghost function Unpaired(w: World, g: Group, ix: nat): World
    requires g in w.groups && ix < |w.groups[g].members| && w.groups[g].members[ix] in w.peers
  {
    var p := w.groups[g].members[ix];
    var joined := w.peers[p].joined;
    var j := First(joined, g);
    w.(groups := w.groups[g := w.groups[g].(members := Without(w.groups[g].members, ix))],
       peers := if j == |joined| then w.peers else w.peers[p := w.peers[p].(joined := Without(joined, j))],
       log := w.log + [PeerRemoved(g, p)])
  }

  /** `udp_group_peer_remove_ix`, for an index in range: a peer left without groups expires. */
  ghost function RemovedAt(w: World, g: Group, ix: nat): World
    requires g in w.groups && ix < |w.groups[g].members| && w.groups[g].members[ix] in w.peers
  {
    var p := w.groups[g].members[ix];
    var w1 := Unpaired(w, g, ix);
    if g in w.peers[p].joined && w1.peers[p].joined == [] then Expired(w1, p) else w1
  }

  ghost function PartedGroups(w: World, g: Group, p: Peer): map<Group, GroupCell>
    requires g in w.groups
  {
    w.groups[g := w.groups[g].(members := Minus(w.groups[g].members, p))]
  }

  ghost function PartedPeers(w: World, g: Group, p: Peer): map<Peer, PeerCell>
    requires p in w.peers
  {
    var joined := Minus(w.peers[p].joined, g);
    if joined == [] then w.peers - {p} else w.peers[p := w.peers[p].(joined := joined)]
  }

  ghost function PartedLedger(w: World, g: Group, p: Peer): Ledger<Peer>
    requires p in w.peers
  {
    if Minus(w.peers[p].joined, g) == [] then ReleasedAll(w.ledger, w.peers[p].queue, Queue(p)) else w.ledger
  }

  ghost function Farewell(w: World, g: Group, p: Peer): seq<Event>
    requires p in w.peers
  {
    [PeerRemoved(g, p)] + if Minus(w.peers[p].joined, g) == [] then [PeerExpired(p)] else []
  }

  /** What parting a group and a peer comes to: each leaves the other's list, a peer left without groups
      expires and lets go of its payloads, and the application is told. */
  ghost function Parted(w: World, g: Group, p: Peer): World
    requires g in w.groups && p in w.peers
  {
    World(PartedGroups(w, g, p), PartedPeers(w, g, p), w.head, w.list, PartedLedger(w, g, p), w.log + Farewell(w, g, p))
  }

  lemma {:induction false} Associative<X>(a: seq<X>, b: seq<X>, c: seq<X>)
    ensures (a + b) + c == a + (b + c)
  {
  }

  lemma {:induction false} MinusOfMembers(w: World, g: Group, ix: nat)
    requires Converse(w.groups, w.peers) && g in w.groups && ix < |w.groups[g].members|
    ensures var p := w.groups[g].members[ix];
            && p in w.peers && g in w.peers[p].joined
            && Unpaired(w, g, ix).groups == PartedGroups(w, g, p)
            && Unpaired(w, g, ix).peers == w.peers[p := w.peers[p].(joined := Minus(w.peers[p].joined, g))]
  {
    var members := w.groups[g].members;
    var p := members[ix];
    assert GroupSound(g, w.groups, w.peers);
    assert p in members;
    assert PeerSound(p, w.groups, w.peers);
    MinusIsWithout(members, p);
    MinusIsWithout(w.peers[p].joined, g);
    if First(members, p) < ix {
      DistinctApart(members, First(members, p), ix);
    } else if ix < First(members, p) {
      DistinctApart(members, ix, First(members, p));
    }
  }

  lemma {:induction false} RemovedIsParted(w: World, g: Group, ix: nat)
    requires Converse(w.groups, w.peers) && g in w.groups && ix < |w.groups[g].members|
    ensures w.groups[g].members[ix] in w.peers && g in w.peers[w.groups[g].members[ix]].joined
    ensures RemovedAt(w, g, ix) == Parted(w, g, w.groups[g].members[ix])
  {
    var p := w.groups[g].members[ix];
    MinusOfMembers(w, g, ix);
    var joined := Minus(w.peers[p].joined, g);
    Associative(w.log, [PeerRemoved(g, p)], if joined == [] then [PeerExpired(p)] else []);
    assert w.peers[p := w.peers[p].(joined := joined)] - {p} == w.peers - {p};
  }

  /** What removing by index comes to, place by place: the member at the index leaves the group's list, and the
      group its place in the member's; the application is told of the removal, and after it of the expiry, if the
      member was in no other group. */
  lemma {:induction false} RemovedAtIs(w: World, g: Group, ix: nat)
    requires Converse(w.groups, w.peers) && g in w.groups && ix < |w.groups[g].members|
    ensures w.groups[g].members[ix] in w.peers
    ensures var members, after := w.groups[g].members, RemovedAt(w, g, ix);
            && after.groups == w.groups[g := GroupCell(w.groups[g].next, members[..ix] + members[ix + 1..])]
            && after.head == w.head && after.list == w.list
    ensures var p, after := w.groups[g].members[ix], RemovedAt(w, g, ix);
            var joined := w.peers[p].joined;
            if joined == [g] then
              && after.peers == w.peers - {p}
              && after.log == w.log + [PeerRemoved(g, p), PeerExpired(p)]
            else
              && after.log == w.log + [PeerRemoved(g, p)] && after.ledger == w.ledger
              && exists j :: 0 <= j < |joined| && joined[j] == g
                   && after.peers == w.peers[p := PeerCell(joined[..j] + joined[j + 1..], w.peers[p].queue)]
  {
    var p := w.groups[g].members[ix];
    RemovedIsParted(w, g, ix);
    PartedJoined(w, g, p);
    var joined := w.peers[p].joined;
    assert Distinct(joined) by { assert PeerSound(p, w.groups, w.peers); }
    MinusIsWithout(joined, g);
    var j := First(joined, g);
    assert joined[j] == g && Minus(joined, g) == joined[..j] + joined[j + 1..];
    MinusOfMembers(w, g, ix);
    assert [PeerRemoved(g, p)] + [PeerExpired(p)] == [PeerRemoved(g, p), PeerExpired(p)];
  }

  lemma {:induction false} UnpairedSound(w: World, g: Group, ix: nat)
    requires Sound(w) && g in w.groups && ix < |w.groups[g].members|
    ensures w.groups[g].members[ix] in w.peers && g in w.peers[w.groups[g].members[ix]].joined
    ensures Sound(Unpaired(w, g, ix))
  {
    var p := w.groups[g].members[ix];
    RemovedIsParted(w, g, ix);
    assert GroupSound(g, w.groups, w.peers);
    MinusOfMembers(w, g, ix);
    UnpairedConverse(w, g, p);
    PartedLinked(w, g, p);
    SameQueues(w.peers, Unpaired(w, g, ix).peers, w.ledger);
  }

  lemma {:induction false} UnpairedConverse(w: World, g: Group, p: Peer)
    requires Converse(w.groups, w.peers) && g in w.groups && p in w.groups[g].members && p in w.peers
    ensures Converse(PartedGroups(w, g, p), w.peers[p := w.peers[p].(joined := Minus(w.peers[p].joined, g))])
  {
    assert GroupSound(g, w.groups, w.peers) && PeerSound(p, w.groups, w.peers);
    var groups, peers := PartedGroups(w, g, p), w.peers[p := w.peers[p].(joined := Minus(w.peers[p].joined, g))];
    MinusIsWithout(w.groups[g].members, p);
    MinusIsWithout(w.peers[p].joined, g);
    forall h | h in groups ensures GroupSound(h, groups, peers) {
      assert GroupSound(h, w.groups, w.peers);
    }
    forall r | r in peers ensures PeerSound(r, groups, peers) {
      assert PeerSound(r, w.groups, w.peers);
    }
  }

  /** A peer that is in no group can go. */
  lemma {:induction false} LonelyConverse(groups: map<Group, GroupCell>, peers: map<Peer, PeerCell>, p: Peer)
    requires Converse(groups, peers) && p in peers && peers[p].joined == []
    ensures Converse(groups, peers - {p})
  {
    forall h | h in groups ensures GroupSound(h, groups, peers - {p}) {
      assert GroupSound(h, groups, peers);
    }
    forall r | r in peers - {p} ensures PeerSound(r, groups, peers - {p}) {
      assert PeerSound(r, groups, peers);
    }
  }

  lemma {:induction false} ExpiredSound(w: World, p: Peer)
    requires Sound(w) && p in w.peers && w.peers[p].joined == []
    ensures Sound(Expired(w, p))
  {
    LonelyConverse(w.groups, w.peers, p);
    ExpiredOwned(w.peers, w.ledger, p);
  }

  lemma {:induction false} PartedLinked(w: World, g: Group, p: Peer)
    requires Linked(w.head, w.list, w.groups) && g in w.groups
    ensures Linked(w.head, w.list, PartedGroups(w, g, p))
  {
    forall i | 0 <= i < |w.list| ensures LinkedAt(w.list, i, PartedGroups(w, g, p)) {
      assert LinkedAt(w.list, i, w.groups);
    }
  }

  /** A peer that expires gives up what it owns, and no other owner loses anything. */
  lemma {:induction false} ExpiredLedger(peers: map<Peer, PeerCell>, ledger: Ledger<Peer>, p: Peer, q: Payload)
    requires Owned(peers, ledger) && p in peers && q in ledger
    ensures var after := ReleasedAll(ledger, peers[p].queue, Queue(p));
            SettledFor(ledger[q].count == PINNED, ledger[q].owners[Queue(p) := 0], after, q)
  {
    BalancedAfter(peers, ledger, p);
    var queue: seq<Payload> := peers[p].queue;
    assert QueueOwned(p, queue, ledger);
    Settled(ledger, queue, Queue(p));
    assert multiset(queue)[q] == ledger[q].owners[Queue(p)];
  }

  lemma {:induction false} BalancedAfter(peers: map<Peer, PeerCell>, ledger: Ledger<Peer>, p: Peer)
    requires Owned(peers, ledger) && p in peers
    ensures Owns(ledger, peers[p].queue, Queue(p))
    ensures Balanced(ReleasedAll(ledger, peers[p].queue, Queue(p)))
    ensures ReleasedAll(ledger, peers[p].queue, Queue(p)).Keys <= ledger.Keys
  {
    var queue: seq<Payload> := peers[p].queue;
    assert QueueOwned(p, queue, ledger);
    forall r | r in queue ensures r in ledger && multiset(queue)[r] <= ledger[r].owners[Queue(p)] {
      assert ledger[r] == ledger[r];
    }
    Settled(ledger, queue, Queue(p));
  }

  lemma {:induction false} ExpiredOwned(peers: map<Peer, PeerCell>, ledger: Ledger<Peer>, p: Peer)
    requires Owned(peers, ledger) && p in peers
    ensures Owned(peers - {p}, ReleasedAll(ledger, peers[p].queue, Queue(p)))
  {
    var after := ReleasedAll(ledger, peers[p].queue, Queue(p));
    BalancedAfter(peers, ledger, p);
    forall r | r in peers - {p} ensures QueueOwned(r, (peers - {p})[r].queue, after) {
      var queue: seq<Payload> := peers[r].queue;
      assert QueueOwned(r, queue, ledger);
      forall q | q in queue ensures q in after {
        ExpiredLedger(peers, ledger, p, q);
        assert multiset(queue)[q] > 0;
        assert Queue(r) in ledger[q].owners[Queue(p) := 0];
      }
      forall q | q in after ensures after[q].owners[Queue(r)] == multiset(queue)[q] {
        ExpiredLedger(peers, ledger, p, q);
      }
    }
    forall q | q in after ensures NoGhosts(q, peers - {p}, after) {
      assert NoGhosts(q, peers, ledger);
      ExpiredLedger(peers, ledger, p, q);
      forall o | o in after[q].owners ensures Living(o, peers - {p}) {
        assert Living(o, peers);
        assert o in ledger[q].owners;
      }
    }
  }

  lemma {:induction false} RemovedAtSound(w: World, g: Group, ix: nat)
    requires Sound(w) && g in w.groups && ix < |w.groups[g].members|
    ensures w.groups[g].members[ix] in w.peers && Sound(RemovedAt(w, g, ix))
  {
    UnpairedSound(w, g, ix);
    var p, w1 := w.groups[g].members[ix], Unpaired(w, g, ix);
    if w1.peers[p].joined == [] {
      ExpiredSound(w1, p);
    }
  }

  /** Parting keeps everything. */
  lemma {:induction false} PartedSound(w: World, g: Group, p: Peer)
    requires Sound(w) && g in w.groups && p in w.groups[g].members
    ensures p in w.peers && Sound(Parted(w, g, p))
  {
    var ix := First(w.groups[g].members, p);
    RemovedAtSound(w, g, ix);
    RemovedIsParted(w, g, ix);
  }

  lemma {:induction false} SameQueues(peers: map<Peer, PeerCell>, peers': map<Peer, PeerCell>, ledger: Ledger<Peer>)
    requires Owned(peers, ledger) && peers'.Keys == peers.Keys
    requires forall p :: p in peers ==> peers'[p].queue == peers[p].queue
    ensures Owned(peers', ledger)
  {
    forall p | p in peers' ensures QueueOwned(p, peers'[p].queue, ledger) {
      assert p in peers.Keys;
      assert QueueOwned(p, peers[p].queue, ledger);
    }
    forall q | q in ledger ensures NoGhosts(q, peers', ledger) {
      assert NoGhosts(q, peers, ledger);
      forall o | o in ledger[q].owners ensures Living(o, peers') {
        assert Living(o, peers);
        assert o.Queue? ==> o.holder in peers.Keys;
      }
    }
  }

  // ------------------------------------------------------------------------------------ emptying a group

  lemma {:induction false} Members(w: World, g: Group)
    requires Sound(w) && g in w.groups
    ensures Distinct(w.groups[g].members)
    ensures forall p :: p in w.groups[g].members ==> p in w.peers
  {
    assert GroupSound(g, w.groups, w.peers);
  }

  /** One round of the loop. */
  lemma {:induction false} LastRemoved(w: World, g: Group)
    requires Sound(w) && g in w.groups && w.groups[g].members != []
    ensures var n := |w.groups[g].members| - 1;
            && w.groups[g].members[n] in w.peers
            && g in RemovedAt(w, g, n).groups && RemovedAt(w, g, n).groups[g].members == w.groups[g].members[..n]
            && Sound(RemovedAt(w, g, n))
  {
    RemovedAtSound(w, g, |w.groups[g].members| - 1);
  }

  lemma {:induction false} MinusLast<X>(s: seq<X>)
    requires Distinct(s) && s != []
    ensures Minus(s, s[|s| - 1]) == s[..|s| - 1]
  {
    var x := s[|s| - 1];
    MinusIsWithout(s, x);
    forall i | 0 <= i < |s| - 1 ensures s[i] != x {
      DistinctApart(s, i, |s| - 1);
    }
  }

  /** The first loop of `udp_group_destroy`: the members are removed from the last one back. */
  ghost function Emptied(w: World, g: Group): World
    requires Sound(w) && g in w.groups
    decreases |w.groups[g].members|
  {
    var members := w.groups[g].members;
    if members == [] then w else
    LastRemoved(w, g);
    Emptied(RemovedAt(w, g, |members| - 1), g)
  }

  /** The peers left when group `g` lets all of its members go. */
  ghost function PeersWithout(peers: map<Peer, PeerCell>, g: Group): map<Peer, PeerCell> {
    map p | p in peers && peers[p].joined != [g] :: peers[p].(joined := Minus(peers[p].joined, g))
  }

  /** What the application is told meanwhile: for each member, from the last one back, that it was removed,
      and that it expired if it was in no other group. */
  ghost function Farewells(w: World, g: Group, members: seq<Peer>): seq<Event>
    requires forall p :: p in members ==> p in w.peers
    decreases |members|
  {
    if members == [] then [] else
    var p := members[|members| - 1];
    Farewell(w, g, p) + Farewells(w, g, members[..|members| - 1])
  }

  lemma {:induction false} SameFarewells(w: World, w': World, g: Group, members: seq<Peer>)
    requires forall p :: p in members ==> p in w.peers && p in w'.peers && w.peers[p] == w'.peers[p]
    ensures Farewells(w, g, members) == Farewells(w', g, members)
    decreases |members|
  {
    if members != [] {
      SameFarewells(w, w', g, members[..|members| - 1]);
    }
  }

  lemma {:induction false} MinusEmpty<X>(s: seq<X>, x: X)
    requires Distinct(s)
    ensures s != [] ==> (Minus(s, x) == [] <==> s == [x])
    ensures Minus(Minus(s, x), x) == Minus(s, x)
  {
    MinusNothing(Minus(s, x), x);
    if x in s {
      MinusIsWithout(s, x);
    } else {
      MinusNothing(s, x);
    }
  }

  lemma {:induction false} OthersStay(w: World, g: Group, p: Peer, others: seq<Peer>)
    requires g in w.groups && p in w.peers && p !in others && forall r :: r in others ==> r in w.peers
    ensures forall r :: r in others ==> r in PartedPeers(w, g, p)
    ensures Farewells(Parted(w, g, p), g, others) == Farewells(w, g, others)
  {
    SameFarewells(w, Parted(w, g, p), g, others);
  }

  lemma {:induction false} NothingToLeave(w: World, g: Group)
    requires Sound(w) && g in w.groups && w.groups[g].members == []
    ensures w.peers == PeersWithout(w.peers, g)
  {
    forall p | p in w.peers ensures w.peers[p].joined != [g] && Minus(w.peers[p].joined, g) == w.peers[p].joined {
      assert PeerSound(p, w.groups, w.peers);
      assert g !in w.peers[p].joined;
      MinusNothing(w.peers[p].joined, g);
    }
  }

  lemma {:induction false} PartedPeersWithout(w: World, g: Group, p: Peer)
    requires p in w.peers && g in w.peers[p].joined && Distinct(w.peers[p].joined)
    ensures PeersWithout(PartedPeers(w, g, p), g) == PeersWithout(w.peers, g)
  {
    MinusEmpty(w.peers[p].joined, g);
    assert g !in Minus(w.peers[p].joined, g);
  }

  lemma {:induction false} PartedEmptied(w: World, g: Group, p: Peer)
    requires g in w.groups && p in w.peers
    ensures var next := Parted(w, g, p);
            && g in next.groups && next.head == w.head && next.list == w.list
            && next.groups[g := next.groups[g].(members := [])] == w.groups[g := w.groups[g].(members := [])]
  {
  }

  lemma {:induction false} LastOut<X>(s: seq<X>, x: X, others: seq<X>)
    requires Distinct(s) && s != [] && x == s[|s| - 1] && others == s[..|s| - 1]
    ensures s == others + [x] && x !in others && Minus(s, x) == others
  {
    MinusLast(s);
  }

  lemma {:induction false} EmptiedOnce(w: World, g: Group) returns (next: World)
    requires Sound(w) && g in w.groups && w.groups[g].members != []
    ensures var n := |w.groups[g].members| - 1;
            && w.groups[g].members[n] in w.peers && next == RemovedAt(w, g, n)
            && g in next.groups && next.groups[g].members == w.groups[g].members[..n]
    ensures Sound(next) && Emptied(w, g) == Emptied(next, g)
  {
    LastRemoved(w, g);
    next := RemovedAt(w, g, |w.groups[g].members| - 1);
  }

  lemma {:induction false} EmptiedStep(w: World, g: Group) returns (p: Peer, others: seq<Peer>, next: World)
    requires Sound(w) && g in w.groups && w.groups[g].members != []
    ensures w.groups[g].members == others + [p] && p !in others && p in w.peers && g in w.peers[p].joined
    ensures next == Parted(w, g, p) && Sound(next) && g in next.groups && next.groups[g].members == others
    ensures Emptied(w, g) == Emptied(next, g)
  {
    var members := w.groups[g].members;
    assert Converse(w.groups, w.peers) && GroupSound(g, w.groups, w.peers);
    p, others := members[|members| - 1], members[..|members| - 1];
    next := EmptiedOnce(w, g);
    RemovedIsParted(w, g, |members| - 1);
    LastOut(members, p, others);
  }

  lemma {:induction false} FarewellsStep(w: World, g: Group, p: Peer, others: seq<Peer>)
    requires p in w.peers && forall r :: r in others ==> r in w.peers
    ensures Farewells(w, g, others + [p]) == Farewell(w, g, p) + Farewells(w, g, others)
  {
    assert (others + [p])[..|others|] == others;
  }

  lemma {:induction false} FarewellCount(w: World, g: Group, r: Peer, p: Peer)
    requires r in w.peers && p in w.peers && g in w.peers[r].joined && Distinct(w.peers[r].joined)
    ensures var told := multiset(Farewell(w, g, r));
            && told[PeerRemoved(g, p)] == (if p == r then 1 else 0)
            && told[PeerExpired(p)] == (if p == r && w.peers[p].joined == [g] then 1 else 0)
  {
    MinusEmpty(w.peers[r].joined, g);
  }

  /** Each member is told of once, and no one else. */
  lemma {:induction false} FarewellsCount(w: World, g: Group, members: seq<Peer>, p: Peer)
    requires Distinct(members) && p in w.peers
    requires forall r :: r in members ==> r in w.peers && g in w.peers[r].joined && Distinct(w.peers[r].joined)
    ensures var told := multiset(Farewells(w, g, members));
            && told[PeerRemoved(g, p)] == (if p in members then 1 else 0)
            && told[PeerExpired(p)] == (if p in members && w.peers[p].joined == [g] then 1 else 0)
    decreases |members|
  {
    if members != [] {
      var r, others := members[|members| - 1], members[..|members| - 1];
      MinusLast(members);
      assert members == others + [r];
      MinusIsWithout(members, r);
      FarewellsCount(w, g, others, p);
      FarewellsStep(w, g, r, others);
      FarewellCount(w, g, r, p);
    }
  }

  lemma {:induction false} FirstJoined<X>(a: seq<X>, b: seq<X>, x: X)
    ensures First(a + b, x) == if x in a then First(a, x) else |a| + First(b, x)
  {
    if a == [] {
      assert a + b == b;
    } else if a[0] != x {
      assert (a + b)[1..] == a[1..] + b;
      FirstJoined(a[1..], b, x);
    }
  }

  lemma {:induction false} FarewellIs(w: World, g: Group, p: Peer)
    requires p in w.peers && g in w.peers[p].joined && Distinct(w.peers[p].joined)
    ensures Farewell(w, g, p) == if w.peers[p].joined == [g] then [PeerRemoved(g, p), PeerExpired(p)] else [PeerRemoved(g, p)]
  {
    MinusEmpty(w.peers[p].joined, g);
  }

  /** The peer lists the group, and no group twice. */
  ghost predicate Belongs(w: World, g: Group, p: Peer) {
    p in w.peers && g in w.peers[p].joined && Distinct(w.peers[p].joined)
  }

  /** Right behind the first `x` comes `y`. */
  ghost predicate RightBehind<X>(s: seq<X>, x: X, y: X) {
    First(s, x) + 1 < |s| && s[First(s, x) + 1] == y
  }

  /** A removal and an expiry in front leave the places behind them as they are. */
  lemma {:induction false} BehindFarewell(w: World, g: Group, r: Peer, rest: seq<Event>, p: Peer)
    requires Belongs(w, g, r) && p != r
    ensures var told := Farewell(w, g, r) + rest;
            && First(told, PeerRemoved(g, p)) == |Farewell(w, g, r)| + First(rest, PeerRemoved(g, p))
            && First(told, PeerRemoved(g, p)) > 0
            && (RightBehind(rest, PeerRemoved(g, p), PeerExpired(p)) ==>
                  RightBehind(told, PeerRemoved(g, p), PeerExpired(p)))
  {
    FarewellIs(w, g, r);
    FirstJoined(Farewell(w, g, r), rest, PeerRemoved(g, p));
  }

  lemma {:induction false} FarewellFirst(w: World, g: Group, r: Peer, rest: seq<Event>)
    requires Belongs(w, g, r)
    ensures var told := Farewell(w, g, r) + rest;
            && told != [] && First(told, PeerRemoved(g, r)) == 0
            && (w.peers[r].joined == [g] ==> RightBehind(told, PeerRemoved(g, r), PeerExpired(r)))
  {
    FarewellIs(w, g, r);
  }

  /** They are told of from the last one back, each expiry right after the removal: of two members the one that
      stands further back in the list is told of first. */
  lemma {:induction false} FarewellsOrder(w: World, g: Group, members: seq<Peer>, p: Peer, q: Peer)
    requires p in members && q in members && forall r :: r in members ==> Belongs(w, g, r)
    requires Distinct(members)
    ensures forall r :: r in members ==> r in w.peers
    ensures var told, at := Farewells(w, g, members), First(Farewells(w, g, members), PeerRemoved(g, p));
            && at < |told|
            && (w.peers[p].joined == [g] ==> RightBehind(told, PeerRemoved(g, p), PeerExpired(p)))
            && (First(members, q) < First(members, p) ==> at < First(told, PeerRemoved(g, q)))
    decreases |members|
  {
    var n := |members| - 1;
    var r, others := members[n], members[..n];
    assert members == others + [r];
    LastOut(members, r, others);
    MinusIsWithout(members, r);
    assert Belongs(w, g, r);
    FarewellsStep(w, g, r, others);
    var rest := Farewells(w, g, others);
    FirstJoined(others, [r], p);
    FirstJoined(others, [r], q);
    FarewellFirst(w, g, r, rest);
    if q != r {
      BehindFarewell(w, g, r, rest, q);
    }
    if p != r {
      BehindFarewell(w, g, r, rest, p);
      FarewellsOrder(w, g, others, p, if q == r then p else q);
    }
  }

  lemma {:induction false} EmptiedSound(w: World, g: Group)
    requires Sound(w) && g in w.groups
    ensures Sound(Emptied(w, g))
    decreases |w.groups[g].members|
  {
    if w.groups[g].members != [] {
      var p, others, next := EmptiedStep(w, g);
      EmptiedSound(next, g);
    }
  }

  lemma {:induction false} EmptiedGroups(w: World, g: Group)
    requires Sound(w) && g in w.groups
    ensures Emptied(w, g).groups == w.groups[g := w.groups[g].(members := [])]
    ensures Emptied(w, g).head == w.head && Emptied(w, g).list == w.list
    decreases |w.groups[g].members|
  {
    if w.groups[g].members != [] {
      var p, others, next := EmptiedStep(w, g);
      EmptiedGroups(next, g);
      PartedEmptied(w, g, p);
    }
  }

  /** Emptying a group takes it, and only it, from each member's list, keeping the order of the others; and
      the members with no other group expire. */
  lemma {:induction false} EmptiedPeers(w: World, g: Group)
    requires Sound(w) && g in w.groups
    ensures Emptied(w, g).peers == PeersWithout(w.peers, g)
    decreases |w.groups[g].members|
  {
    if w.groups[g].members == [] {
      NothingToLeave(w, g);
    } else {
      var p, others, next := EmptiedStep(w, g);
      EmptiedPeers(next, g);
      assert PeerSound(p, w.groups, w.peers);
      PartedPeersWithout(w, g, p);
    }
  }

  /** Meanwhile the application is told of each member once. */
  lemma {:induction false} EmptiedLog(w: World, g: Group)
    requires Sound(w) && g in w.groups
    ensures forall p :: p in w.groups[g].members ==> p in w.peers
    ensures Emptied(w, g).log == w.log + Farewells(w, g, w.groups[g].members)
    decreases |w.groups[g].members|
  {
    Members(w, g);
    var members := w.groups[g].members;
    if members != [] {
      var p, others, next := EmptiedStep(w, g);
      EmptiedLog(next, g);
      OthersStay(w, g, p, others);
      FarewellsStep(w, g, p, others);
      Associative(w.log, Farewell(w, g, p), Farewells(w, g, others));
    }
  }

  /** The owner is the queue of a peer that goes with the group. */
  ghost predicate Goes(w: World, g: Group, o: Owner<Peer>) {
    o.Queue? && o.holder in w.peers && w.peers[o.holder].joined == [g]
  }

  /** Each payload loses the peers that go with the group as owners, and nobody else; and it is freed only if
      it had no other. */
  ghost predicate LetGo(w: World, g: Group, after: Ledger<Peer>, q: Payload)
    requires q in w.ledger
  {
    if q in after then
      && (forall o {:trigger Goes(w, g, o)} :: o in after[q].owners ==> o in w.ledger[q].owners)
      && (forall o {:trigger Goes(w, g, o)} :: o in w.ledger[q].owners ==>
            after[q].owners[o] == if Goes(w, g, o) then 0 else w.ledger[q].owners[o])
    else
      && w.ledger[q].count < PINNED
      && (forall o {:trigger Goes(w, g, o)} :: o in w.ledger[q].owners ==> Goes(w, g, o))
  }

  lemma {:induction false} GoesWith(w: World, g: Group, p: Peer, o: Owner<Peer>)
    requires Converse(w.groups, w.peers) && g in w.groups && p in w.peers && g in w.peers[p].joined
    ensures Goes(w, g, o) <==> Goes(Parted(w, g, p), g, o) || (o == Queue(p) && w.peers[p].joined == [g])
  {
    assert PeerSound(p, w.groups, w.peers);
    MinusEmpty(w.peers[p].joined, g);
  }

  /** The peer that parts stays: nothing changes hands. */
  lemma {:induction false} StaysLetGo(w: World, g: Group, p: Peer, after: Ledger<Peer>, q: Payload)
    requires Sound(w) && g in w.groups && p in w.peers && g in w.peers[p].joined && q in w.ledger
    requires w.peers[p].joined != [g]
    requires Parted(w, g, p).ledger == w.ledger && LetGo(Parted(w, g, p), g, after, q)
    ensures LetGo(w, g, after, q)
  {
    var next := Parted(w, g, p);
    if q in after {
      forall o | o in after[q].owners ensures o in w.ledger[q].owners {
        GoesWith(w, g, p, o);
      }
    }
    forall o | o in w.ledger[q].owners
      ensures if q in after then after[q].owners[o] == if Goes(w, g, o) then 0 else w.ledger[q].owners[o] else Goes(w, g, o)
    {
      GoesWith(w, g, p, o);
    }
  }

  /** The peer that parts expires: its references go first. */
  lemma {:induction false} ExpiresLetGo(w: World, g: Group, p: Peer, after: Ledger<Peer>, q: Payload)
    requires Sound(w) && g in w.groups && p in w.peers && q in w.ledger
    requires w.peers[p].joined == [g]
    requires var next := Parted(w, g, p); if q in next.ledger then LetGo(next, g, after, q) else q !in after
    ensures LetGo(w, g, after, q)
  {
    var next, left := Parted(w, g, p), w.ledger[q].owners[Queue(p) := 0];
    PartedJoined(w, g, p);
    ExpiredLedger(w.peers, w.ledger, p, q);
    assert SettledFor(w.ledger[q].count == PINNED, left, next.ledger, q);
    if q in after {
      forall o | o in after[q].owners ensures o in w.ledger[q].owners && o != Queue(p) {
        GoesWith(w, g, p, o);
        assert o in left;
      }
    }
    forall o | o in w.ledger[q].owners
      ensures if q in after then after[q].owners[o] == if Goes(w, g, o) then 0 else w.ledger[q].owners[o] else Goes(w, g, o)
    {
      GoesWith(w, g, p, o);
      assert left[o] == if o == Queue(p) then 0 else w.ledger[q].owners[o];
      if q in after && o == Queue(p) {
        assert o !in after[q].owners;
      }
    }
  }

  lemma {:induction false} NoneGoes(w: World, g: Group, o: Owner<Peer>)
    requires Sound(w) && g in w.groups && w.groups[g].members == []
    ensures !Goes(w, g, o)
  {
    if o.Queue? && o.holder in w.peers {
      assert PeerSound(o.holder, w.groups, w.peers);
      assert g !in w.peers[o.holder].joined;
    }
  }

  lemma {:induction false} PartedJoined(w: World, g: Group, p: Peer)
    requires Converse(w.groups, w.peers) && g in w.groups && p in w.peers && g in w.peers[p].joined
    ensures Minus(w.peers[p].joined, g) == [] <==> w.peers[p].joined == [g]
  {
    assert PeerSound(p, w.groups, w.peers);
    MinusEmpty(w.peers[p].joined, g);
  }

  lemma {:induction false} EmptiedLedger(w: World, g: Group)
    requires Sound(w) && g in w.groups
    ensures Emptied(w, g).ledger.Keys <= w.ledger.Keys
    ensures forall q :: q in w.ledger ==> LetGo(w, g, Emptied(w, g).ledger, q)
    decreases |w.groups[g].members|
  {
    if w.groups[g].members == [] {
      forall q | q in w.ledger ensures LetGo(w, g, w.ledger, q) {
        assert NoGhosts(q, w.peers, w.ledger);
        forall o ensures !Goes(w, g, o) {
          NoneGoes(w, g, o);
        }
      }
    } else {
      var p, others, next := EmptiedStep(w, g);
      EmptiedLedger(next, g);
      ShrinkingLedger(w, g, p);
      forall q | q in w.ledger ensures LetGo(w, g, Emptied(w, g).ledger, q) {
        if w.peers[p].joined == [g] {
          ExpiresLetGo(w, g, p, Emptied(w, g).ledger, q);
        } else {
          PartedJoined(w, g, p);
          StaysLetGo(w, g, p, Emptied(w, g).ledger, q);
        }
      }
    }
  }

  lemma {:induction false} ShrinkingLedger(w: World, g: Group, p: Peer)
    requires Owned(w.peers, w.ledger) && p in w.peers
    ensures PartedLedger(w, g, p).Keys <= w.ledger.Keys
  {
    BalancedAfter(w.peers, w.ledger, p);
  }

  // ------------------------------------------------------------------------------------ destroying a group

  /** The second loop of `udp_group_destroy`: whatever points to the group in the list points past it. */
  ghost function Delisted(w: World, g: Group): World
    requires Linked(w.head, w.list, w.groups) && g in w.groups
  {
    var i := First(w.list, g);
    if i == |w.list| then w else
    var after := w.groups[g].next;
    if i == 0 then w.(head := after, list := Without(w.list, i))
    else
      assert LinkedAt(w.list, i - 1, w.groups);
      w.(groups := w.groups[w.list[i - 1] := w.groups[w.list[i - 1]].(next := after)], list := Without(w.list, i))
  }

  lemma {:induction false} DelistedLinked(w: World, g: Group)
    requires Linked(w.head, w.list, w.groups) && g in w.groups
    ensures var after := Delisted(w, g); Linked(after.head, after.list, after.groups - {g})
    ensures Delisted(w, g).list == Minus(w.list, g)
  {
    var i, after := First(w.list, g), Delisted(w, g);
    if i == |w.list| {
      MinusNothing(w.list, g);
      forall j | 0 <= j < |w.list| ensures LinkedAt(w.list, j, w.groups - {g}) {
        assert w.list[j] in w.list;
        assert LinkedAt(w.list, j, w.groups);
      }
    } else {
      MinusIsWithout(w.list, g);
      WithoutMembers(w.list, i);
      assert LinkedAt(w.list, i, w.groups);
      forall j | 0 <= j < |after.list| ensures LinkedAt(after.list, j, after.groups - {g}) {
        DelistedAt(w, g, i, j);
      }
    }
  }

  lemma {:induction false} DelistedAt(w: World, g: Group, i: nat, j: nat)
    requires Linked(w.head, w.list, w.groups) && g in w.groups
    requires i == First(w.list, g) < |w.list| && j < |w.list| - 1
    ensures LinkedAt(Delisted(w, g).list, j, Delisted(w, g).groups - {g})
  {
    var list, k := w.list, if j < i then j else j + 1;
    assert LinkedAt(list, i, w.groups) && LinkedAt(list, k, w.groups);
    if i < k {
      DistinctApart(list, i, k);
    } else {
      DistinctApart(list, k, i);
    }
    if 0 < i && k < i - 1 {
      DistinctApart(list, k, i - 1);
    } else if 0 < i && i - 1 < k {
      DistinctApart(list, i - 1, k);
    }
  }

  lemma {:induction false} DelistedConverse(w: World, g: Group)
    requires Sound(w) && g in w.groups && w.groups[g].members == []
    ensures Converse(Delisted(w, g).groups - {g}, w.peers)
    ensures forall h :: h in w.groups ==> h in Delisted(w, g).groups && Delisted(w, g).groups[h].members == w.groups[h].members
    ensures Delisted(w, g).groups.Keys == w.groups.Keys
  {
    var groups := Delisted(w, g).groups;
    if 0 < First(w.list, g) < |w.list| {
      assert LinkedAt(w.list, First(w.list, g) - 1, w.groups);
      assert w.list[First(w.list, g) - 1] in w.groups.Keys;
    }
    assert groups.Keys == w.groups.Keys;
    forall h | h in groups - {g} ensures GroupSound(h, groups - {g}, w.peers) {
      assert h in w.groups.Keys;
      assert GroupSound(h, w.groups, w.peers);
    }
    forall p | p in w.peers ensures PeerSound(p, groups - {g}, w.peers) {
      assert PeerSound(p, w.groups, w.peers);
    }
  }

  ghost function Freed(w: World, g: Group): World
    requires Linked(w.head, w.list, w.groups) && g in w.groups
  {
    var w1 := Delisted(w, g);
    w1.(groups := w1.groups - {g})
  }

  lemma {:induction false} FreedSound(w: World, g: Group)
    requires Sound(w) && g in w.groups && w.groups[g].members == []
    ensures Sound(Freed(w, g))
  {
    DelistedConverse(w, g);
    DelistedLinked(w, g);
  }

  /** `udp_group_destroy`. */
  ghost function Destroyed(w: World, g: Group): World
    requires Sound(w) && g in w.groups
  {
    EmptiedSound(w, g);
    EmptiedGroups(w, g);
    var w1 := Freed(Emptied(w, g), g);
    if g in w.list then w1 else w1.(log := w1.log + [ErrorReported])
  }

  lemma {:induction false} DestroyedSound(w: World, g: Group)
    requires Sound(w) && g in w.groups
    ensures Sound(Destroyed(w, g))
  {
    EmptiedSound(w, g);
    EmptiedGroups(w, g);
    FreedSound(Emptied(w, g), g);
  }

  /** Destroying a group takes it, and only it, out of its members' lists and out of the list of groups, in
      which the others keep their order; and the members with no other group expire. */
  lemma {:induction false} DestroyedIs(w: World, g: Group)
    requires Sound(w) && g in w.groups
    ensures var after := Destroyed(w, g);
            && after.groups.Keys == w.groups.Keys - {g}
            && (forall h :: h in after.groups ==> after.groups[h].members == w.groups[h].members)
            && after.peers == PeersWithout(w.peers, g)
            && after.list == Minus(w.list, g)
            && (forall h :: h in after.groups && h !in w.list ==> after.groups[h] == w.groups[h])
  {
    EmptiedSound(w, g);
    EmptiedGroups(w, g);
    EmptiedPeers(w, g);
    var w1 := Emptied(w, g);
    DelistedConverse(w1, g);
    DelistedLinked(w1, g);
  }

  /** Each member's removal and each expiry is told once, and an error is reported exactly if the group was not
      in the list. */
  lemma {:induction false} DestroyedTold(w: World, g: Group)
    requires Sound(w) && g in w.groups
    ensures forall p :: p in w.groups[g].members ==> p in w.peers
    ensures Destroyed(w, g).log == w.log + Farewells(w, g, w.groups[g].members) + if g in w.list then [] else [ErrorReported]
  {
    EmptiedSound(w, g);
    EmptiedGroups(w, g);
    EmptiedLog(w, g);
  }

  /** The queues of the peers that expire lose their payloads, nobody else does, and a payload is freed only if
      it had no other owner. */
  lemma {:induction false} DestroyedLedger(w: World, g: Group)
    requires Sound(w) && g in w.groups
    ensures Destroyed(w, g).ledger.Keys <= w.ledger.Keys
    ensures forall q :: q in w.ledger ==> LetGo(w, g, Destroyed(w, g).ledger, q)
  {
    EmptiedSound(w, g);
    EmptiedGroups(w, g);
    EmptiedLedger(w, g);
  }

  // ------------------------------------------------------------------------------------ adding a peer

  /** `udp_group_peer_add`. `room1` and `room2` say whether the two appends find memory. When the first one
      fails, nothing happens and the answer is `Ok` all the same. */
  ghost function Added(w: World, g: Group, p: Peer, room1: bool, room2: bool): (World, Err)
    requires g in w.groups && p in w.peers
  {
    if g in w.peers[p].joined then (w, InvalidArgument)
    else if !Appends(w.peers[p].joined, room1) then (w, Ok)
    else if !Appends(w.groups[g].members, room2) then (w, OutOfMemory)
    else (w.(groups := w.groups[g := w.groups[g].(members := w.groups[g].members + [p])],
             peers := w.peers[p := w.peers[p].(joined := w.peers[p].joined + [g])]), Ok)
  }

  lemma {:induction false} DistinctOneMore<X>(s: seq<X>, x: X)
    requires Distinct(s) && x !in s
    ensures Distinct(s + [x])
  {
    DistinctJoin(s, [x]);
  }

  lemma {:induction false} AddedSound(w: World, g: Group, p: Peer, room1: bool, room2: bool)
    requires Sound(w) && g in w.groups && p in w.peers
    ensures Sound(Added(w, g, p, room1, room2).0)
  {
    var w1 := Added(w, g, p, room1, room2).0;
    if w1 != w {
      assert PeerSound(p, w.groups, w.peers) && GroupSound(g, w.groups, w.peers);
      DistinctOneMore(w.groups[g].members, p);
      DistinctOneMore(w.peers[p].joined, g);
      forall h | h in w1.groups ensures GroupSound(h, w1.groups, w1.peers) {
        assert GroupSound(h, w.groups, w.peers);
      }
      forall r | r in w1.peers ensures PeerSound(r, w1.groups, w1.peers) {
        assert PeerSound(r, w.groups, w.peers);
      }
      forall i | 0 <= i < |w.list| ensures LinkedAt(w.list, i, w1.groups) {
        assert LinkedAt(w.list, i, w.groups);
      }
      SameQueues(w.peers, w1.peers, w.ledger);
    }
  }

  /** What the answer is worth. `InvalidArgument`: the peer was a member already. `OutOfMemory`: it was not, and
      the group's list did not take it. Either way everything is as before. `Ok` ought to mean that the peer is
      a member now; it fails to exactly when the peer was none and its own list did not take the group. */
  lemma {:induction false} AddedAnswer(w: World, g: Group, p: Peer, room1: bool, room2: bool)
    requires Sound(w) && g in w.groups && p in w.peers
    ensures var (after, err) := Added(w, g, p, room1, room2);
            && g in after.groups
            && (err == InvalidArgument <==> p in w.groups[g].members)
            && (err == OutOfMemory <==>
                  && p !in w.groups[g].members
                  && Appends(w.peers[p].joined, room1) && !Appends(w.groups[g].members, room2))
            && (err != Ok ==> after == w)
            && (err == Ok && p !in after.groups[g].members <==>
                  p !in w.groups[g].members && !Appends(w.peers[p].joined, room1))
            && (err == Ok && p !in after.groups[g].members ==> after == w)
  {
    assert PeerSound(p, w.groups, w.peers) && GroupSound(g, w.groups, w.peers);
  }

  /** What adding comes to. A peer that is no member, when both lists have room, becomes the last member of the
      group, and the group the last one of the peer; nothing else changes. In all other cases nothing does. */
  lemma {:induction false} AddedIs(w: World, g: Group, p: Peer, room1: bool, room2: bool)
    requires Sound(w) && g in w.groups && p in w.peers
    ensures var members, joined, after := w.groups[g].members, w.peers[p].joined, Added(w, g, p, room1, room2).0;
            if p !in members && |joined| < 0x100000 && room1 && |members| < 0x100000 && room2 then
              && Added(w, g, p, room1, room2).1 == Ok
              && after.groups == w.groups[g := GroupCell(w.groups[g].next, members + [p])]
              && after.peers == w.peers[p := PeerCell(joined + [g], w.peers[p].queue)]
              && after.head == w.head && after.list == w.list && after.ledger == w.ledger && after.log == w.log
            else
              after == w
  {
    AddedAnswer(w, g, p, room1, room2);
    assert PeerSound(p, w.groups, w.peers) && GroupSound(g, w.groups, w.peers);
  }

  /** One group and one peer that is in no group. */
  ghost function Pair(g: Group, p: Peer): World {
    World(map[g := GroupCell(null, [])], map[p := PeerCell([], [])], null, [], map[], [])
  }

  /** The failure itself: with no memory for the peer's list the answer is `Ok`, and nothing has been added. */
  lemma {:induction false} OkWithoutMembership(g: Group, p: Peer)
    ensures var w := Pair(g, p);
            && Sound(w)
            && Added(w, g, p, false, true) == (w, Ok)
            && p !in w.groups[g].members && g !in w.peers[p].joined
  {
    var w := Pair(g, p);
    assert GroupSound(g, w.groups, w.peers) && PeerSound(p, w.groups, w.peers);
    assert QueueOwned(p, w.peers[p].queue, w.ledger);
  }

  /** Removing the peer just added leaves its lists, and the group's, as they were; unless it had no other
      group: then it expires. */
  lemma {:induction false} AddedThenParted(w: World, g: Group, p: Peer)
    requires Sound(w) && g in w.groups && p in w.peers
    requires Appends(w.peers[p].joined, true) && Appends(w.groups[g].members, true) && g !in w.peers[p].joined
    ensures var added := Added(w, g, p, true, true).0;
            && Parted(added, g, p).groups == w.groups
            && Parted(added, g, p).peers == (if w.peers[p].joined == [] then w.peers - {p} else w.peers)
  {
    AddedAnswer(w, g, p, true, true);
    PartedAgain(w, g, p);
  }

  lemma {:induction false} PartedAgain(w: World, g: Group, p: Peer)
    requires g in w.groups && p in w.peers && p !in w.groups[g].members && g !in w.peers[p].joined
    requires Appends(w.peers[p].joined, true) && Appends(w.groups[g].members, true)
    ensures var added := Added(w, g, p, true, true).0;
            && PartedGroups(added, g, p) == w.groups
            && PartedPeers(added, g, p) == (if w.peers[p].joined == [] then w.peers - {p} else w.peers)
  {
    MinusAppended(w.groups[g].members, p);
    MinusAppended(w.peers[p].joined, g);
  }

  lemma {:induction false} MinusAppended<X>(s: seq<X>, x: X)
    requires x !in s
    ensures Minus(s + [x], x) == s
  {
    if s != [] {
      MinusAppended(s[1..], x);
      assert (s + [x])[1..] == s[1..] + [x];
    }
  }

  // ------------------------------------------------------------------------------------ whole runs

  /** What can happen. `Publish` is the store of a new group as head of the list, which `udp_group_create`
      prepares and leaves out; `Admit`, `Issue` and `Enqueue` stand for the parts of the library that make
      peers, make payloads and queue them. */
  datatype Op =
    | Create(g: Group)
    | Publish(g: Group)
    | Add(g: Group, p: Peer, room1: bool, room2: bool)
    | RemoveIx(g: Group, ix: nat)
    | Remove(g: Group, p: Peer)
    | Destroy(g: Group)
    | Admit(p: Peer)
    | Issue(q: Payload)
    | Enqueue(p: Peer, q: Payload)

  ghost predicate Possible(w: World, op: Op) {
    match op
    case Create(g) => g !in w.groups
    case Publish(g) => g in w.groups && g !in w.list && w.groups[g].next == w.head
    case Add(g, p, _, _) => g in w.groups && p in w.peers
    case RemoveIx(g, ix) => g in w.groups
    case Remove(g, p) => g in w.groups
    case Destroy(g) => g in w.groups
    case Admit(p) => p !in w.peers && forall q :: q in w.ledger ==> Queue(p) !in w.ledger[q].owners
    case Issue(q) => q !in w.ledger
    case Enqueue(p, q) => p in w.peers && q in w.ledger && App in w.ledger[q].owners
  }

  ghost function Created(w: World, g: Group): World {
    w.(groups := w.groups[g := GroupCell(w.head, [])])
  }

  ghost function Applied(w: World, op: Op): World
    requires Sound(w) && Possible(w, op)
  {
    match op
    case Create(g) => Created(w, g)
    case Publish(g) => w.(head := g, list := [g] + w.list)
    case Add(g, p, room1, room2) => Added(w, g, p, room1, room2).0
    case RemoveIx(g, ix) =>
      if ix < |w.groups[g].members| then Members(w, g); RemovedAt(w, g, ix) else w
    case Remove(g, p) =>
      var ix := First(w.groups[g].members, p);
      if ix < |w.groups[g].members| then Members(w, g); RemovedAt(w, g, ix) else w
    case Destroy(g) => Destroyed(w, g)
    case Admit(p) => w.(peers := w.peers[p := PeerCell([], [])])
    case Issue(q) => w.(ledger := Issued(w.ledger, q))
    case Enqueue(p, q) =>
      w.(peers := Enqueued(w.peers, p, q),
         ledger := Passed(w.ledger, q, App, Queue(p)))
  }

  lemma {:induction false} CreatedSound(w: World, g: Group)
    requires Sound(w) && g !in w.groups
    ensures Sound(Created(w, g))
  {
    var w1 := Created(w, g);
    forall h | h in w1.groups ensures GroupSound(h, w1.groups, w1.peers) {
      assert h != g ==> GroupSound(h, w.groups, w.peers);
    }
    forall p | p in w1.peers ensures PeerSound(p, w1.groups, w1.peers) {
      assert PeerSound(p, w.groups, w.peers);
    }
    forall i | 0 <= i < |w.list| ensures LinkedAt(w.list, i, w1.groups) {
      assert LinkedAt(w.list, i, w.groups);
    }
  }

  lemma {:induction false} PublishedSound(w: World, g: Group)
    requires Sound(w) && Possible(w, Publish(g))
    ensures Sound(Applied(w, Publish(g)))
  {
    var list := [g] + w.list;
    assert list[1..] == w.list;
    forall i | 0 <= i < |list| ensures LinkedAt(list, i, w.groups) {
      assert i > 0 ==> LinkedAt(w.list, i - 1, w.groups);
    }
  }

  lemma {:induction false} AdmittedSound(w: World, p: Peer)
    requires Sound(w) && Possible(w, Admit(p))
    ensures Sound(Applied(w, Admit(p)))
  {
    var w1 := Applied(w, Admit(p));
    forall h | h in w1.groups ensures GroupSound(h, w1.groups, w1.peers) {
      assert GroupSound(h, w.groups, w.peers);
    }
    forall r | r in w1.peers ensures PeerSound(r, w1.groups, w1.peers) {
      assert r != p ==> PeerSound(r, w.groups, w.peers);
    }
    forall r | r in w1.peers ensures QueueOwned(r, w1.peers[r].queue, w1.ledger) {
      assert r != p ==> QueueOwned(r, w.peers[r].queue, w.ledger);
    }
    forall q | q in w1.ledger ensures NoGhosts(q, w1.peers, w1.ledger) {
      assert NoGhosts(q, w.peers, w.ledger);
      forall o | o in w1.ledger[q].owners ensures Living(o, w1.peers) {
        assert Living(o, w.peers);
      }
    }
  }

  lemma {:induction false} NewcomerOwnsNothing(w: World, p: Peer)
    requires Sound(w) && p !in w.peers
    ensures Possible(w, Admit(p))
  {
    forall q | q in w.ledger ensures Queue(p) !in w.ledger[q].owners {
      assert NoGhosts(q, w.peers, w.ledger);
      assert !Living(Queue(p), w.peers);
    }
  }

  lemma {:induction false} IssuedSound(w: World, q: Payload)
    requires Sound(w) && q !in w.ledger
    ensures Sound(Applied(w, Op.Issue(q)))
  {
    var ledger := Issued(w.ledger, q);
    forall p | p in w.peers ensures QueueOwned(p, w.peers[p].queue, ledger) {
      assert QueueOwned(p, w.peers[p].queue, w.ledger);
      assert q !in w.peers[p].queue;
    }
    forall r | r in ledger ensures NoGhosts(r, w.peers, ledger) {
      assert r != q ==> NoGhosts(r, w.peers, w.ledger);
    }
  }

  lemma {:induction false} SamePairs(groups: map<Group, GroupCell>, peers: map<Peer, PeerCell>, peers': map<Peer, PeerCell>)
    requires Converse(groups, peers) && peers'.Keys == peers.Keys
    requires forall p :: p in peers ==> peers'[p].joined == peers[p].joined
    ensures Converse(groups, peers')
  {
    forall h | h in groups ensures GroupSound(h, groups, peers') {
      assert GroupSound(h, groups, peers);
      assert forall p :: p in peers.Keys ==> p in peers';
    }
    forall r | r in peers' ensures PeerSound(r, groups, peers') {
      assert r in peers.Keys;
      assert PeerSound(r, groups, peers);
    }
  }

  ghost function Enqueued(peers: map<Peer, PeerCell>, p: Peer, q: Payload): map<Peer, PeerCell>
    requires p in peers
  {
    peers[p := peers[p].(queue := peers[p].queue + [q])]
  }

  lemma {:induction false} EnqueuedOwned(peers: map<Peer, PeerCell>, ledger: Ledger<Peer>, p: Peer, q: Payload)
    requires Owned(peers, ledger) && p in peers && q in ledger && App in ledger[q].owners
    ensures Owned(Enqueued(peers, p, q), Passed(ledger, q, App, Queue(p)))
  {
    var peers', ledger' := Enqueued(peers, p, q), Passed(ledger, q, App, Queue(p));
    EntryKeeps(ledger, Entry.Pass(q, App, Queue(p)));
    forall r | r in peers' ensures QueueOwned(r, peers'[r].queue, ledger') {
      EnqueuedQueue(peers, ledger, p, q, r);
    }
    forall r | r in ledger' ensures NoGhosts(r, peers', ledger') {
      assert NoGhosts(r, peers, ledger);
      forall o | o in ledger'[r].owners ensures Living(o, peers') {
        assert Living(o, peers);
      }
    }
  }

  lemma {:induction false} EnqueuedQueue(peers: map<Peer, PeerCell>, ledger: Ledger<Peer>, p: Peer, q: Payload, r: Peer)
    requires Owned(peers, ledger) && p in peers && q in ledger && App in ledger[q].owners && r in peers
    ensures QueueOwned(r, Enqueued(peers, p, q)[r].queue, Passed(ledger, q, App, Queue(p)))
  {
    assert QueueOwned(r, peers[r].queue, ledger);
  }

  lemma {:induction false} EnqueuedSound(w: World, p: Peer, q: Payload)
    requires Sound(w) && Possible(w, Enqueue(p, q))
    ensures Sound(Applied(w, Enqueue(p, q)))
  {
    EnqueuedOwned(w.peers, w.ledger, p, q);
    SamePairs(w.groups, w.peers, Enqueued(w.peers, p, q));
  }

  lemma {:induction false} AppliedSound(w: World, op: Op)
    requires Sound(w) && Possible(w, op)
    ensures Sound(Applied(w, op))
  {
    match op
    case Create(g) => CreatedSound(w, g);
    case Publish(g) => PublishedSound(w, g);
    case Add(g, p, room1, room2) => AddedSound(w, g, p, room1, room2);
    case RemoveIx(g, ix) =>
      if ix < |w.groups[g].members| {
        RemovedAtSound(w, g, ix);
      }
    case Remove(g, p) =>
      if p in w.groups[g].members {
        RemovedAtSound(w, g, First(w.groups[g].members, p));
      }
    case Destroy(g) => DestroyedSound(w, g);
    case Admit(p) => AdmittedSound(w, p);
    case Issue(q) => IssuedSound(w, q);
    case Enqueue(p, q) => EnqueuedSound(w, p, q);
  }

  const NOTHING := World(map[], map[], null, [], map[], [])

  /** `after` comes of `w` by the operations. */
  ghost predicate Leads(w: World, ops: seq<Op>, after: World)
    requires Sound(w)
    decreases |ops|
  {
    if ops == [] then w == after
    else Possible(w, ops[0]) && (AppliedSound(w, ops[0]); Leads(Applied(w, ops[0]), ops[1..], after))
  }

  /** In every run the two relations stay converse and free of duplicates, the list of groups stays linked,
      and each payload's count stays the number of its owners. */
  lemma {:induction false} RunSound(w: World, ops: seq<Op>, after: World)
    requires Sound(w) && Leads(w, ops, after)
    ensures Sound(after)
    decreases |ops|
  {
    if ops != [] {
      AppliedSound(w, ops[0]);
      RunSound(Applied(w, ops[0]), ops[1..], after);
    }
  }

  /** The operation takes peer `p` out of the one group it is in. */
  ghost predicate TakesLast(w: World, op: Op, p: Peer)
    requires p in w.peers
  {
    match op
    case RemoveIx(g, ix) => g in w.groups && ix < |w.groups[g].members| && w.groups[g].members[ix] == p && w.peers[p].joined == [g]
    case Remove(g, r) => r == p && w.peers[p].joined == [g]
    case Destroy(g) => w.peers[p].joined == [g]
    case _ => false
  }

  /** A peer dies exactly when its last group lets it go. */
  lemma {:induction false} DiesWithLastGroup(w: World, op: Op, p: Peer)
    requires Sound(w) && Possible(w, op) && p in w.peers
    ensures p !in Applied(w, op).peers <==> TakesLast(w, op, p)
  {
    assert PeerSound(p, w.groups, w.peers);
    match op
    case RemoveIx(g, ix) =>
      if ix < |w.groups[g].members| {
        RemovedIsParted(w, g, ix);
        PartedJoined(w, g, w.groups[g].members[ix]);
      }
    case Remove(g, r) =>
      assert w.peers[p].joined == [g] ==> g in w.peers[p].joined;
      if r in w.groups[g].members {
        RemovedIsParted(w, g, First(w.groups[g].members, r));
        PartedJoined(w, g, r);
      }
    case Destroy(g) => DestroyedIs(w, g);
    case _ =>
  }

  /** As shipped, nobody stores a new group in the list: it stays empty, and destroying any group ends with an
      error report. */
  lemma {:induction false} NeverListed(w: World, ops: seq<Op>, after: World, g: Group)
    requires Sound(w) && Leads(w, ops, after) && w.list == []
    requires forall i :: 0 <= i < |ops| ==> !ops[i].Publish?
    requires g in after.groups
    ensures Sound(after) && after.list == []
    ensures Destroyed(after, g).log != [] && Destroyed(after, g).log[|Destroyed(after, g).log| - 1] == ErrorReported
    decreases |ops|
  {
    if ops != [] {
      AppliedSound(w, ops[0]);
      if ops[0].Destroy? {
        DestroyedIs(w, ops[0].g);
      }
      NeverListed(Applied(w, ops[0]), ops[1..], after, g);
    } else {
      DestroyedTold(w, g);
    }
  }
}
