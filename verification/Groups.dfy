/** The group functions in memory: what they do to the objects is what `Membership` says of the world. */
module Groups {
  import opened Chains
  import opened Payloads
  import opened Membership
  import opened Vectors

  ghost predicate HoldsGroup(g: Group, cell: GroupCell)
    reads g
  {
    g.next == cell.next && g.peers == cell.members
  }

  ghost predicate HoldsPeer(p: Peer, cell: PeerCell)
    reads p
  {
    p.groups == cell.joined && p.outQueue == cell.queue
  }

  /** The scan these functions have in common: where `x` first stands, or the length of the list. */
  method Scan<X(==)>(s: seq<X>, x: X) returns (i: nat)
    ensures i == First(s, x)
  {
    i := 0;
    while i != |s|
      invariant 0 <= i <= |s| && x !in s[..i]
    {
      if s[i] == x {
        FirstAt(s, x, i);
        return;
      }
      i := i + 1;
    }
    assert s[..i] == s;
  }

  /** `udp_instance_t`, with everything that hangs on it. */
  class Instance {
    var groups: Group?

    ghost var world: World
    ghost var Repr: set<object>

    /** The memory is as the world says. */
    ghost predicate Holds(w: World)
      reads this, Repr
    {
      && (forall g {:trigger HoldsGroup(g, w.groups[g])} :: g in w.groups ==> g in Repr && HoldsGroup(g, w.groups[g]))
      && (forall p {:trigger HoldsPeer(p, w.peers[p])} :: p in w.peers ==> p in Repr && HoldsPeer(p, w.peers[p]))
      && (forall q {:trigger HoldsPayload(q, w.ledger[q])} :: q in w.ledger ==> q in Repr && HoldsPayload(q, w.ledger[q]))
    }

    ghost predicate Valid()
      reads this, Repr
    {
      this in Repr && groups == world.head && Holds(world) && Sound(world)
    }

    constructor ()
      ensures Valid() && fresh(Repr) && world == NOTHING
    {
      groups := null;
      world, Repr := NOTHING, {this};
    }

    /** `udp_group_create`: the new group points to the head of the list, which stays as it is. */
    method GroupCreate() returns (g: Group)
      requires Valid()
      modifies this
      ensures Valid() && fresh(g) && Repr == old(Repr) + {g}
      ensures g !in old(world.groups) && world == Created(old(world), g)
      ensures world.groups == old(world.groups)[g := GroupCell(old(world.head), [])] && world.peers == old(world.peers)
      ensures world.head == old(world.head) && world.list == old(world.list)
      ensures world.ledger == old(world.ledger) && world.log == old(world.log)
    {
      ghost var w := world;
      forall h | h in w.groups ensures h in Repr {
        assert HoldsGroup(h, w.groups[h]);
      }
      g := new Group(groups);
      CreatedSound(w, g);
      world, Repr := Created(w, g), Repr + {g};
      forall h | h in world.groups ensures h in Repr && HoldsGroup(h, world.groups[h]) {
        assert h != g ==> old(HoldsGroup(h, w.groups[h]));
      }
      forall p | p in world.peers ensures p in Repr && HoldsPeer(p, world.peers[p]) {
        assert old(HoldsPeer(p, w.peers[p]));
      }
      forall q | q in world.ledger ensures q in Repr && HoldsPayload(q, world.ledger[q]) {
        assert old(HoldsPayload(q, w.ledger[q]));
      }
    }

    /** The store that `udp_group_create` leaves out: the new group becomes the head of the list. */
    method Publish(g: Group)
      requires Valid() && Possible(world, Op.Publish(g))
      modifies this
      ensures Valid() && Repr == old(Repr)
      ensures Sound(old(world)) && Possible(old(world), Op.Publish(g)) && world == Applied(old(world), Op.Publish(g))
      ensures world == old(world).(head := g, list := [g] + old(world.list))
    {
      ghost var w := world;
      PublishedSound(w, g);
      groups := g;
      world := Applied(w, Op.Publish(g));
      forall h | h in world.groups ensures h in Repr && HoldsGroup(h, world.groups[h]) {
        assert old(HoldsGroup(h, w.groups[h]));
      }
      forall r | r in world.peers ensures r in Repr && HoldsPeer(r, world.peers[r]) {
        assert old(HoldsPeer(r, w.peers[r]));
      }
      forall q | q in world.ledger ensures q in Repr && HoldsPayload(q, world.ledger[q]) {
        assert old(HoldsPayload(q, w.ledger[q]));
      }
    }

    /** A peer that is new to the library, as the reception of packets would make it. */
    method Admit() returns (p: Peer)
      requires Valid()
      modifies this
      ensures Valid() && fresh(p) && Repr == old(Repr) + {p}
      ensures Sound(old(world)) && Possible(old(world), Op.Admit(p)) && world == Applied(old(world), Op.Admit(p))
      ensures world == old(world).(peers := old(world.peers)[p := PeerCell([], [])])
    {
      ghost var w := world;
      forall r | r in w.peers ensures r in Repr {
        assert HoldsPeer(r, w.peers[r]);
      }
      p := new Peer();
      NewcomerOwnsNothing(w, p);
      AdmittedSound(w, p);
      world, Repr := Applied(w, Op.Admit(p)), Repr + {p};
      forall h | h in world.groups ensures h in Repr && HoldsGroup(h, world.groups[h]) {
        assert old(HoldsGroup(h, w.groups[h]));
      }
      forall r | r in world.peers ensures r in Repr && HoldsPeer(r, world.peers[r]) {
        assert r != p ==> old(HoldsPeer(r, w.peers[r]));
      }
      forall q | q in world.ledger ensures q in Repr && HoldsPayload(q, world.ledger[q]) {
        assert old(HoldsPayload(q, w.ledger[q]));
      }
    }

    /** `udp_payload_get`: a payload for the application. */
    method PayloadGet() returns (q: Payload)
      requires Valid()
      modifies this
      ensures Valid() && fresh(q) && Repr == old(Repr) + {q}
      ensures Sound(old(world)) && Possible(old(world), Op.Issue(q)) && world == Applied(old(world), Op.Issue(q))
      ensures world == old(world).(ledger := old(world.ledger)[q := Account(1, multiset{App})])
    {
      ghost var w := world;
      forall r | r in w.ledger ensures r in Repr {
        assert HoldsPayload(r, w.ledger[r]);
      }
      q := new Payload();
      IssuedSound(w, q);
      world, Repr := Applied(w, Op.Issue(q)), Repr + {q};
      forall h | h in world.groups ensures h in Repr && HoldsGroup(h, world.groups[h]) {
        assert old(HoldsGroup(h, w.groups[h]));
      }
      forall r | r in world.peers ensures r in Repr && HoldsPeer(r, world.peers[r]) {
        assert old(HoldsPeer(r, w.peers[r]));
      }
      forall o | o in world.ledger ensures o in Repr && HoldsPayload(o, world.ledger[o]) {
        assert o != q ==> old(HoldsPayload(o, w.ledger[o]));
      }
    }

    /** A payload of the application's goes into a peer's queue, reference and all. */
    method Enqueue(p: Peer, q: Payload)
      requires Valid() && Possible(world, Op.Enqueue(p, q))
      modifies this, p
      ensures Valid() && Repr == old(Repr)
      ensures Sound(old(world)) && Possible(old(world), Op.Enqueue(p, q)) && world == Applied(old(world), Op.Enqueue(p, q))
      ensures var cell, account := old(world.peers)[p], old(world.ledger)[q];
              world == old(world).(
                peers := old(world.peers)[p := PeerCell(cell.joined, cell.queue + [q])],
                ledger := old(world.ledger)[
                  q := Account(account.count, account.owners - multiset{App} + multiset{Queue(p)})])
    {
      ghost var w := world;
      assert HoldsPeer(p, w.peers[p]);
      EnqueuedSound(w, p, q);
      p.outQueue := p.outQueue + [q];
      world := Applied(w, Op.Enqueue(p, q));
      forall h | h in world.groups ensures h in Repr && HoldsGroup(h, world.groups[h]) {
        assert old(HoldsGroup(h, w.groups[h]));
      }
      forall r | r in world.peers ensures r in Repr && HoldsPeer(r, world.peers[r]) {
        assert old(HoldsPeer(r, w.peers[r]));
      }
      forall o | o in world.ledger ensures o in Repr && HoldsPayload(o, world.ledger[o]) {
        assert old(HoldsPayload(o, w.ledger[o]));
      }
    }

    /** `udp_group_peer_add`: each becomes the last in the other's list, or nothing changes. */
    method PeerAdd(g: Group, p: Peer, room1: bool, room2: bool) returns (err: Err)
      requires Valid() && g in world.groups && p in world.peers
      modifies g, p, this
      ensures Valid() && Repr == old(Repr)
      ensures (world, err) == Added(old(world), g, p, room1, room2)
      ensures var members, joined := old(world.groups)[g].members, old(world.peers)[p].joined;
              if p !in members && |joined| < 0x100000 && room1 && |members| < 0x100000 && room2 then
                && err == Ok
                && world.groups == old(world.groups)[g := GroupCell(old(world.groups)[g].next, members + [p])]
                && world.peers == old(world.peers)[p := PeerCell(joined + [g], old(world.peers)[p].queue)]
                && world.head == old(world.head) && world.list == old(world.list)
                && world.ledger == old(world.ledger) && world.log == old(world.log)
              else world == old(world)
    {
      AddedIs(world, g, p, room1, room2);
      assert HoldsPeer(p, world.peers[p]);
      var i := Scan(p.groups, g);
      if i != |p.groups| {
        return InvalidArgument;
      }
      ghost var w := world;
      err := Enter(g, p, room1, room2);
      world := Added(w, g, p, room1, room2).0;
      AddedSound(w, g, p, room1, room2);
      forall h | h in world.groups ensures h in Repr && HoldsGroup(h, world.groups[h]) {
        assert old(HoldsGroup(h, w.groups[h]));
      }
      forall r | r in world.peers ensures r in Repr && HoldsPeer(r, world.peers[r]) {
        assert old(HoldsPeer(r, w.peers[r]));
      }
      forall q | q in world.ledger ensures q in Repr && HoldsPayload(q, world.ledger[q]) {
        assert old(HoldsPayload(q, w.ledger[q]));
      }
    }

    /** Both lists take each other's owner, or neither does. */
    method Enter(g: Group, p: Peer, room1: bool, room2: bool) returns (err: Err)
      requires Valid() && g in world.groups && p in world.peers && g !in world.peers[p].joined
      modifies g, p
      ensures var (after, answer) := Added(world, g, p, room1, room2);
              HoldsGroup(g, after.groups[g]) && HoldsPeer(p, after.peers[p]) && err == answer
    {
      assert HoldsGroup(g, world.groups[g]) && HoldsPeer(p, world.peers[p]);
      err := Ok;
      var joined, n := AppendTo(p.groups, g, room1);
      p.groups := joined;
      if n != 0 {
        var members, m := AppendTo(g.peers, p, room2);
        g.peers := members;
        if m == 0 {
          p.groups := p.groups[..n - 1] + p.groups[n..];
          assert p.groups == world.peers[p].joined;
          err := OutOfMemory;
        }
      }
    }

    /** The payloads that are alive. */
    ghost function Payloads(): set<object>
      reads this
    {
      Live(world.ledger)
    }

    /** `udp_peer_destroy`: the application is told, and the peer's payloads are released. */
    method PeerDestroy(p: Peer)
      requires Valid() && p in world.peers && world.peers[p].joined == []
      modifies this, Payloads()
      ensures Valid() && Repr == old(Repr) && world == Expired(old(world), p)
      ensures world.peers == old(world.peers) - {p} && world.log == old(world.log) + [PeerExpired(p)]
      ensures world.groups == old(world.groups) && world.head == old(world.head) && world.list == old(world.list)
    {
      ghost var w := world;
      ExpiredSound(w, p);
      BalancedAfter(w.peers, w.ledger, p);
      assert HoldsPeer(p, w.peers[p]);
      ReleaseEach(p.outQueue, w.ledger, Queue(p));
      world := Expired(w, p);
      forall h | h in world.groups ensures h in Repr && HoldsGroup(h, world.groups[h]) {
        assert old(HoldsGroup(h, w.groups[h]));
      }
      forall r | r in world.peers ensures r in Repr && HoldsPeer(r, world.peers[r]) {
        assert old(HoldsPeer(r, w.peers[r]));
      }
      forall q | q in world.ledger ensures q in Repr && HoldsPayload(q, world.ledger[q]) {
        assert q in w.ledger.Keys;
        assert old(HoldsPayload(q, w.ledger[q]));
      }
    }

    /** The pair at `ix` is taken apart. The peer's list does hold the group. */
    method Unpair(g: Group, ix: nat) returns (peer: Peer)
      requires Valid() && g in world.groups && ix < |world.groups[g].members|
      modifies this, Repr
      ensures Valid() && Repr == old(Repr)
      ensures peer == old(world.groups)[g].members[ix] && peer in old(world.peers) && peer in world.peers
      ensures g in old(world.peers)[peer].joined && world == Unpaired(old(world), g, ix)
    {
      ghost var w := world;
      UnpairedSound(w, g, ix);
      assert HoldsGroup(g, w.groups[g]);
      peer := g.peers[ix];
      assert HoldsPeer(peer, w.peers[peer]);
      g.peers := Without(g.peers, ix);
      var i := Scan(peer.groups, g);
      peer.groups := Without(peer.groups, i);
      world := Unpaired(w, g, ix);
      forall h | h in world.groups ensures h in Repr && HoldsGroup(h, world.groups[h]) {
        assert old(HoldsGroup(h, w.groups[h]));
      }
      forall r | r in world.peers ensures r in Repr && HoldsPeer(r, world.peers[r]) {
        assert old(HoldsPeer(r, w.peers[r]));
      }
      forall q | q in world.ledger ensures q in Repr && HoldsPayload(q, world.ledger[q]) {
        assert old(HoldsPayload(q, w.ledger[q]));
      }
    }

    /** `udp_group_peer_remove_ix`. */
    method PeerRemoveIx(g: Group, ix: nat) returns (err: Err)
      requires Valid() && g in world.groups
      modifies this, Repr
      ensures Valid() && Repr == old(Repr)
      ensures err == if ix < |old(world.groups)[g].members| then Ok else InvalidArgument
      ensures err != Ok ==> world == old(world)
      ensures err == Ok ==> old(world.groups)[g].members[ix] in old(world.peers) && world == RemovedAt(old(world), g, ix)
    {
      assert HoldsGroup(g, world.groups[g]);
      if ix >= |g.peers| {
        return InvalidArgument;
      }
      var peer := Unpair(g, ix);
      assert HoldsPeer(peer, world.peers[peer]);
      if |peer.groups| == 0 {
        forall q | q in world.ledger ensures q in Repr {
          assert HoldsPayload(q, world.ledger[q]);
        }
        PeerDestroy(peer);
      }
      return Ok;
    }

    /** `udp_group_peer_remove`. */
    method PeerRemove(g: Group, p: Peer) returns (err: Err)
      requires Valid() && g in world.groups
      modifies this, Repr
      ensures Valid() && Repr == old(Repr)
      ensures err == if p in old(world.groups)[g].members then Ok else InvalidArgument
      ensures err != Ok ==> world == old(world)
      ensures err == Ok ==> p in old(world.peers) && world == Parted(old(world), g, p)
    {
      ghost var w := world;
      assert HoldsGroup(g, w.groups[g]);
      var i := Scan(g.peers, p);
      if i == |g.peers| {
        return InvalidArgument;
      }
      RemovedIsParted(w, g, i);
      err := PeerRemoveIx(g, i);
      return Ok;
    }

    /** The second loop of `udp_group_destroy`: what points to the group in the list is the head of the list,
        or the group `prev`. */
    method Locate(g: Group) returns (found: bool, prev: Group?)
      requires Valid() && g in world.groups
      ensures found == (g in world.list)
      ensures found ==> prev == if First(world.list, g) == 0 then null else world.list[First(world.list, g) - 1]
    {
      ghost var list, i := world.list, 0;
      var n := groups;
      found, prev := false, null;
      while n != null
        invariant 0 <= i <= |list| && n == (if i < |list| then list[i] else null)
        invariant prev == (if i == 0 then null else list[i - 1])
        invariant g !in list[..i] && !found
        decreases |list| - i
      {
        if n == g {
          FirstAt(list, g, i);
          return true, prev;
        }
        assert LinkedAt(list, i, world.groups);
        assert HoldsGroup(n, world.groups[n]);
        prev := n;
        n := n.next;
        i := i + 1;
      }
      assert list[..i] == list;
    }

    /** What points to the group is set to what follows it. */
    method PointPast(g: Group, prev: Group?)
      requires Valid() && g in world.groups && g in world.list
      requires prev == if First(world.list, g) == 0 then null else world.list[First(world.list, g) - 1]
      modifies this`groups, world.groups.Keys
      ensures groups == Freed(world, g).head
      ensures forall h :: h in Freed(world, g).groups ==> HoldsGroup(h, Freed(world, g).groups[h])
    {
      assert HoldsGroup(g, world.groups[g]);
      if prev == null {
        groups := g.next;
      } else {
        assert LinkedAt(world.list, First(world.list, g) - 1, world.groups);
        prev.next := g.next;
      }
      forall h | h in Freed(world, g).groups ensures HoldsGroup(h, Freed(world, g).groups[h]) {
        assert old(HoldsGroup(h, world.groups[h]));
      }
    }

    /** The group is taken out of the list, if it is there, and freed. */
    method Delist(g: Group) returns (found: bool)
      requires Valid() && g in world.groups && world.groups[g].members == []
      modifies this, Repr
      ensures Valid() && Repr == old(Repr)
      ensures world == Freed(old(world), g) && found == (g in old(world.list))
    {
      ghost var w := world;
      forall h | h in w.groups ensures h in Repr {
        assert HoldsGroup(h, w.groups[h]);
      }
      var prev;
      found, prev := Locate(g);
      if found {
        PointPast(g, prev);
      }
      DelistedConverse(w, g);
      world := Freed(w, g);
      FreedSound(w, g);
      forall h | h in world.groups ensures h in Repr && HoldsGroup(h, world.groups[h]) {
        assert !found ==> old(HoldsGroup(h, w.groups[h]));
      }
      forall r | r in world.peers ensures r in Repr && HoldsPeer(r, world.peers[r]) {
        assert old(HoldsPeer(r, w.peers[r]));
      }
      forall q | q in world.ledger ensures q in Repr && HoldsPayload(q, world.ledger[q]) {
        assert old(HoldsPayload(q, w.ledger[q]));
      }
    }

    ghost method Report()
      requires Valid()
      modifies this
      ensures Valid() && Repr == old(Repr) && world == old(world).(log := old(world.log) + [ErrorReported])
    {
      ghost var w := world;
      world := w.(log := w.log + [ErrorReported]);
      forall h | h in world.groups ensures h in Repr && HoldsGroup(h, world.groups[h]) {
        assert old(HoldsGroup(h, w.groups[h]));
      }
      forall r | r in world.peers ensures r in Repr && HoldsPeer(r, world.peers[r]) {
        assert old(HoldsPeer(r, w.peers[r]));
      }
      forall q | q in world.ledger ensures q in Repr && HoldsPayload(q, world.ledger[q]) {
        assert old(HoldsPayload(q, w.ledger[q]));
      }
    }

    /** `udp_group_destroy`. */
    method GroupDestroy(g: Group)
      requires Valid() && g in world.groups
      modifies this, Repr
      ensures Valid() && Repr == old(Repr) && world == Destroyed(old(world), g)
    {
      ghost var w := world;
      var errors := 0;
      assert HoldsGroup(g, w.groups[g]);
      var i := |g.peers|;
      while i > 0
        invariant Valid() && Repr == old(Repr) && g in world.groups
        invariant i == |world.groups[g].members| && errors == 0
        invariant Emptied(world, g) == Emptied(w, g) && world.list == w.list
      {
        LastRemoved(world, g);
        var err := PeerRemoveIx(g, i - 1);
        if err != Ok {
          errors := errors + 1;
        }
        i := i - 1;
      }
      errors := errors + 1;
      var found := Delist(g);
      if found {
        errors := errors - 1;
      }
      if errors > 0 {
        Report();
      }
    }
  }
}
