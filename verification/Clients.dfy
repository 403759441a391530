/** The client in memory: connecting, polling, and taking connections down. */
module Clients {
  import opened Payloads
  import opened Timers
  import opened HashPod
  import opened Vectors
  import opened Connections
  import opened Polls
  import HashTables
  import Chains

  // ------------------------------------------------------------------------------------ the callbacks of the table

  /** `connection_hash`. */
  function ConnectionHash(addr: Addr): nat {
    Hash(addr)
  }

  /** `connection_comp`: the difference of the first two bytes that differ. */
  function ConnectionComp(a: Addr, b: Addr): (r: int)
    ensures r == 0 <==> a == b
  {
    if a == [] || b == [] then |a| - |b|
    else if a[0] != b[0] then a[0] as int - b[0] as int
    else
      assert a == [a[0]] + a[1..] && b == [b[0]] + b[1..];
      ConnectionComp(a[1..], b[1..])
  }

  function AddrOf(c: Connection): Addr {
    c.addr
  }

  ghost function Itself(a: Addr): Addr {
    a
  }

  lemma {:induction false} AddressesAreCoherent()
    ensures HashTables.Coherent(ConnectionHash, ConnectionComp, Itself)
    ensures ConnectionHash([]) == 1
    ensures forall a, b {:trigger ConnectionHash(a + [b])} ::
              ConnectionHash(a + [b]) == (ConnectionHash(a) * 22511 + 33469 + b as int) % 0x1_0000_0000_0000_0000
  {
    forall a: Addr, b: Byte
      ensures ConnectionHash(a + [b]) == (ConnectionHash(a) * 22511 + 33469 + b as int) % 0x1_0000_0000_0000_0000
    {
      assert (a + [b])[..|a|] == a;
    }
  }

  // ------------------------------------------------------------------------------------ the objects

  ghost function TimerOf(c: Connection): Timer
    reads c
  {
    Timer(c.phase, c.lastTransmit, c.lastReceive, c.ntransmit)
  }

  ghost predicate HoldsConn(c: Connection, cell: Cell)
    reads c
  {
    TimerOf(c) == cell.timer && c.connPayload == cell.slot && c.outgoing == cell.queue
  }

  // ------------------------------------------------------------------------------------ the handlers

  /** `udp_client_payload_send`, as its header has it: a packet that is sent takes a reference with it. */
  method PayloadSend(payload: Payload, sent: bool) returns (ok: bool)
    requires payload.refcount > 0
    modifies payload
    ensures ok == sent
    ensures payload.refcount ==
      if sent && old(payload.refcount) < PINNED then old(payload.refcount) - 1 else old(payload.refcount)
  {
    if sent {
      var error, freed := payload.Release();
    }
    ok := sent;
  }

  /** What holding a payload and sending it makes of its count. */
  function SentCount(n: nat, action: Action, sent: bool): nat {
    if action != Send || n == PINNED || (sent && n + 1 < PINNED) then n else n + 1
  }

  /** `udpcns_initial`: the payload is sent when more than 100,000 microseconds, and 20,000 for each time before,
      have passed since the last time. A send that fails is the end, and so is the eleventh. */
  method HandleInitial(c: Connection, now: nat, luck: Luck) returns (n: int)
    requires c.connPayload != null && 0 < c.connPayload.refcount <= PINNED
    modifies c, c.connPayload
    ensures c.connPayload == old(c.connPayload) && c.outgoing == old(c.outgoing)
    ensures var o := InitialStep(old(TimerOf(c)), now, luck);
            && TimerOf(c) == o.timer && n == o.verdict
            && c.connPayload.refcount == SentCount(old(c.connPayload.refcount), o.action, luck.sent)
    ensures var t, held := old(TimerOf(c)), old(c.connPayload.refcount);
            if Elapsed(now, t.lastTransmit) <= 100000 + 20000 * t.ntransmit then
              n == luck.stray && TimerOf(c) == t && c.connPayload.refcount == held
            else if t.ntransmit >= 10 then
              n == -1 && TimerOf(c) == t.(lastTransmit := now) && c.connPayload.refcount == held
            else
              && n == (if luck.sent then luck.stray else -1)
              && TimerOf(c) == t.(lastTransmit := now, ntransmit := t.ntransmit + 1)
              && c.connPayload.refcount == if held == 0xffff || (luck.sent && held < 0xfffe) then held else held + 1
  {
    if Since(now, c.lastTransmit) > CONNECT_RETRANSMIT_INTERVAL + c.ntransmit * CONNECT_RETRANSMIT_INTERVAL_INCREMENT {
      c.lastTransmit := now;
      if c.ntransmit < CONNECT_RETRANSMIT_COUNT {
        c.ntransmit := c.ntransmit + 1;
        var error := c.connPayload.Hold();
        var ok := PayloadSend(c.connPayload, luck.sent);
        if !ok {
          return -1;
        }
      } else {
        return -1;
      }
    }
    return luck.stray;
  }

  /** `udpcns_preconnect`: a connection that has just been made is sent at the first poll later than 100,000. */
  method HandlePreconnect(c: Connection, now: nat, luck: Luck) returns (n: int)
    requires c.connPayload != null && 0 < c.connPayload.refcount <= PINNED
    modifies c, c.connPayload
    ensures c.connPayload == old(c.connPayload) && c.outgoing == old(c.outgoing)
    ensures var o := InitialStep(old(TimerOf(c)).(phase := Initial), now, luck);
            && TimerOf(c) == o.timer && n == o.verdict
            && c.connPayload.refcount == SentCount(old(c.connPayload.refcount), o.action, luck.sent)
    ensures c.phase == Initial && c.lastReceive == old(c.lastReceive)
    ensures old(TimerOf(c)) == Timer(Preconnect, 0, 0, 0) && now < 0x1_0000_0000_0000_0000 ==>
              if now <= 100000 then n == luck.stray && TimerOf(c) == Timer(Initial, 0, 0, 0)
              else n == (if luck.sent then luck.stray else -1) && TimerOf(c) == Timer(Initial, now, 0, 1)
    ensures var t, held := old(TimerOf(c)), old(c.connPayload.refcount);
            if Elapsed(now, t.lastTransmit) <= 100000 + 20000 * t.ntransmit then
              n == luck.stray && TimerOf(c) == t.(phase := Initial) && c.connPayload.refcount == held
            else if t.ntransmit >= 10 then
              n == -1 && TimerOf(c) == t.(phase := Initial, lastTransmit := now) && c.connPayload.refcount == held
            else
              && n == (if luck.sent then luck.stray else -1)
              && TimerOf(c) == t.(phase := Initial, lastTransmit := now, ntransmit := t.ntransmit + 1)
              && c.connPayload.refcount == if held == 0xffff || (luck.sent && held < 0xfffe) then held else held + 1
  {
    c.phase := Initial;
    n := HandleInitial(c, now, luck);
  }

  /** `udpcns_connected`: a peer that has been silent for more than 5,000,000 microseconds is given up; else an idle
      packet is queued when more than 600,000 have passed since the last transmission. */
  method HandleConnected(c: Connection, now: nat, luck: Luck) returns (n: int, ghost q: Payload?)
    modifies c
    ensures c.connPayload == old(c.connPayload)
    ensures var o := ConnectedStep(old(TimerOf(c)), now, luck.(room := Appends(old(c.outgoing), luck.room)));
            && TimerOf(c) == o.timer && n == o.verdict
            && (o.action == Idle <==> q != null) && (q != null ==> fresh(q))
            && if o.action == Idle && Appends(old(c.outgoing), luck.room)
               then q != null && q.refcount == 1 && c.outgoing == old(c.outgoing) + [q]
               else c.outgoing == old(c.outgoing)
    ensures var t, queue := old(TimerOf(c)), old(c.outgoing);
            if Elapsed(now, t.lastReceive) > 5000000 then
              n == -1 && q == null && TimerOf(c) == t && c.outgoing == queue
            else if Elapsed(now, t.lastTransmit) <= 600000 then
              n == luck.stray && q == null && TimerOf(c) == t && c.outgoing == queue
            else
              && q != null && TimerOf(c) == t.(lastTransmit := now)
              && if luck.room && |queue| < 0x100000 then n == luck.stray && c.outgoing == queue + [q] && q.refcount == 1
                 else n == -1 && c.outgoing == queue
  {
    q := null;
    if Since(now, c.lastReceive) > IDLE_TIMEOUT_INTERVAL {
      return -1, q;
    }
    if Since(now, c.lastTransmit) > IDLE_RETRANSMIT_INTERVAL {
      c.lastTransmit := now;
      var pl := new Payload();
      q := pl;
      var outgoing, i := AppendTo(c.outgoing, pl, luck.room);
      c.outgoing := outgoing;
      if i == 0 {
        var error, freed := pl.Release();
        return -1, q;
      }
    }
    return luck.stray, q;
  }

  /** What a handler makes of the connection itself. */
  function CellAfter(cell: Cell, now: nat, luck: Luck, q: Payload?): Cell
    requires Judged(cell, now, luck).action == Idle ==> q != null
  {
    var o := Judged(cell, now, luck);
    cell.(timer := o.timer,
          queue := if o.action == Idle && Appends(cell.queue, luck.room) then cell.queue + [q] else cell.queue)
  }

  /** What a handler leaves in memory. */
  lemma {:induction false} HandledMemory(n: Net, c: Connection, now: nat, luck: Luck, q: Payload?)
    requires c in n.conns && n.conns[c].slot != null && n.conns[c].slot in n.ledger && Balanced(n.ledger)
    requires Judged(n.conns[c], now, luck).action == Idle ==> q != null && q !in n.ledger
    ensures var h, cell, o := Handled(n, c, now, luck, q), n.conns[c], Judged(n.conns[c], now, luck);
            && h.conns == n.conns[c := CellAfter(cell, now, luck, q)]
            && (forall r :: r in h.ledger && r !in n.ledger ==>
                  r == q && o.action == Idle && Appends(cell.queue, luck.room) && h.ledger[r].count == 1)
            && (forall r :: r in h.ledger && r in n.ledger ==>
                  h.ledger[r].count == if r == cell.slot then SentCount(n.ledger[r].count, o.action, luck.sent) else n.ledger[r].count)
  {
    var cell, o := n.conns[c], Judged(n.conns[c], now, luck);
    match o.action {
      case Nothing =>
      case Send => SentCounts(n.ledger, cell.slot, luck.sent);
      case Idle =>
        assert Released(Issued(n.ledger, q), q, App) == n.ledger;
    }
  }

  lemma {:induction false} SentCounts(l: Ledger<Connection>, p: Payload, sent: bool)
    requires Balanced(l) && p in l
    ensures Sent(l, p, sent).Keys == l.Keys
    ensures forall r :: r in l ==> Sent(l, p, sent)[r].count == if r == p then SentCount(l[r].count, Send, sent) else l[r].count
  {
    SentBalanced(l, p, sent);
  }

  /** The handler of the connection's state. */
  method Dispatch(c: Connection, now: nat, luck: Luck, ghost cell: Cell) returns (n: int, ghost q: Payload?)
    requires HoldsConn(c, cell) && cell.slot != null && 0 < cell.slot.refcount <= PINNED
    modifies c, c.connPayload
    ensures var o := Judged(cell, now, luck);
            && n == o.verdict && (o.action == Idle <==> q != null) && (q != null ==> fresh(q))
            && (o.action == Idle && Appends(cell.queue, luck.room) ==> q.refcount == 1)
            && HoldsConn(c, CellAfter(cell, now, luck, q))
            && cell.slot.refcount == SentCount(old(cell.slot.refcount), o.action, luck.sent)
    ensures old(c.phase) == Final || old(c.phase) == Dead ==>
              && n == (if old(c.phase) == Dead then -1 else luck.stray) && q == null && unchanged(c, cell.slot)
  {
    q := null;
    match c.phase {
      case Preconnect => n := HandlePreconnect(c, now, luck);
      case Initial => n := HandleInitial(c, now, luck);
      case Connected => n, q := HandleConnected(c, now, luck);
      case Final => n := luck.stray;
      case Dead => n := -1;
    }
  }

  // ------------------------------------------------------------------------------------ the client

  /** The table holds each live connection under its address, and nothing else. */
  ghost predicate Agreed(conns: set<Connection>, table: map<Addr, Connection>) {
    && (forall c :: c in conns ==> c.addr in table && table[c.addr] == c)
    && (forall a :: a in table ==> table[a] in conns && table[a].addr == a)
  }

  /** From one state of the table to the next, the node of an address has been taken out of the order, at `p`,
      and the items of the other nodes stand. */
  ghost predicate TookOut(before: HashTables.Model<Connection, Addr>,
      after: HashTables.Model<Connection, Addr>, addr: Addr, p: nat) {
    && p < |Chains.Flat(before.chains)|
    && Chains.Flat(after.chains) == Chains.Without(Chains.Flat(before.chains), p)
    && addr in before.nodes && Chains.Flat(before.chains)[p] == before.nodes[addr]
    && forall o :: o in after.cells ==> o in before.cells && after.cells[o].item == before.cells[o].item
  }

  // ------------------------------------------------------------------------------------ a poll under way

  ghost function Upcoming(left: seq<Connection>): HashTables.Ref<Connection> {
    if left == [] then HashTables.Null else HashTables.Pointer(left[0])
  }

  lemma {:induction false} AllHaveCome(order: seq<Connection>, at: nat)
    requires at <= |order| && !Upcoming(Still(order, at)).Pointer?
    ensures at == |order|
  {
  }

  lemma {:induction false} KeysWithout<V>(m: map<Connection, V>, c: Connection)
    ensures (m - {c}).Keys == m.Keys - {c}
  {
  }

  lemma {:induction false} ListsTail(left: seq<Connection>, conns: set<Connection>)
    requires Lists(left, conns) && left != []
    ensures left[0] in conns && Lists(Tail(left), conns - {left[0]})
  {
    assert left == [left[0]] + Tail(left);
  }

  /** How `udp_client_connect` ends. `Aborted` is the assertion after the assignment, which stops the program
      when the table finds no memory for a node. */
  datatype Ending = Duplicate | NoMemory | Made | Aborted

  /** `udp_client_t`, with its connections and their payloads. */
  class Client {
    const connections: HashTables.HashTable<Connection, Addr>

    ghost var net: Net
    ghost var Repr: set<object>

    ghost predicate Memory()
      reads this, Repr
    {
      && this !in Repr
      && (forall c {:trigger HoldsConn(c, net.conns[c])} :: c in net.conns ==> c in Repr && HoldsConn(c, net.conns[c]))
      && (forall q {:trigger HoldsPayload(q, net.ledger[q])} :: q in net.ledger ==> q in Repr && HoldsPayload(q, net.ledger[q]))
      && Sound(net.conns, net.ledger)
    }

    /** The table is a table of connections, apart from them in memory. */
    ghost predicate Listed()
      reads this, connections, connections.Repr
    {
      && connections.Valid()
      && connections.pointers && connections.keyOf == AddrOf && connections.canon == Itself
      && this !in connections.Repr && connections.Repr !! Repr
    }

    ghost predicate Tabled()
      reads this, connections, connections.Repr
    {
      Listed() && Agreed(net.conns.Keys, connections.Contents())
    }

    /** The part of `udp_client_initialize` that sets up the table. */
    constructor ()
      ensures Memory() && Tabled() && fresh(connections) && fresh(connections.Repr)
      ensures net == Net(map[], map[], []) && connections.Contents() == map[] && Repr == {}
    {
      AddressesAreCoherent();
      connections := new HashTables.HashTable(true, ConnectionHash, ConnectionComp, AddrOf, Itself);
      net, Repr := Net(map[], map[], []), {};
    }

    /** The handler runs: the memory is then as `Handled` says. */
    method Act(c: Connection, now: nat, luck: Luck) returns (n: int, ghost q: Payload?)
      requires Memory() && c in net.conns
      modifies Repr
      ensures OwnsIts(c, net.conns[c], net.ledger)
      ensures q != null ==> fresh(q) && q !in net.ledger && q !in Repr
      ensures n == Judged(net.conns[c], now, luck).verdict
      ensures Judged(net.conns[c], now, luck).action == Idle <==> q != null
      ensures var h := Handled(net, c, now, luck, q);
              && (forall d :: d in h.conns ==> d in Repr && HoldsConn(d, h.conns[d]))
              && (forall r :: r in h.ledger ==> (r in Repr || r == q) && HoldsPayload(r, h.ledger[r]))
    {
      ghost var m := net;
      assert Sound(m.conns, m.ledger);
      assert OwnsIts(c, m.conns[c], m.ledger);
      ghost var cell := m.conns[c];
      assert HoldsConn(c, cell) && HoldsPayload(cell.slot, m.ledger[cell.slot]);
      forall r | r in m.ledger ensures r in Repr {
        assert HoldsPayload(r, m.ledger[r]);
      }
      n, q := Dispatch(c, now, luck, cell);
      HandledMemory(m, c, now, luck, q);
      ghost var h := Handled(m, c, now, luck, q);
      forall d | d in h.conns ensures d in Repr && HoldsConn(d, h.conns[d]) {
        assert old(HoldsConn(d, m.conns[d]));
      }
      forall r | r in h.ledger ensures (r in Repr || r == q) && HoldsPayload(r, h.ledger[r]) {
        assert r != q ==> old(HoldsPayload(r, m.ledger[r]));
      }
    }

    /** A handler has run: what it has not touched is as before. */
    method Handle(c: Connection, now: nat, luck: Luck) returns (n: int, ghost q: Payload?)
      requires Memory() && c in net.conns
      modifies this`net, this`Repr, Repr
      ensures Memory() && OwnsIts(c, old(net.conns)[c], old(net.ledger))
      ensures q == null ==> Repr == old(Repr)
      ensures q != null ==> fresh(q) && q !in old(net.ledger) && Repr == old(Repr) + {q}
      ensures n == Judged(old(net.conns)[c], now, luck).verdict
      ensures Judged(old(net.conns)[c], now, luck).action == Idle ==> q != null
      ensures net == Handled(old(net), c, now, luck, q)
    {
      ghost var m := net;
      assert Sound(m.conns, m.ledger);
      n, q := Act(c, now, luck);
      HandledSound(m, c, now, luck, q);
      net := Handled(m, c, now, luck, q);
      if q != null {
        Repr := Repr + {q};
      }
    }

    /** The same, as the table sees it: it is not concerned. */
    method HandleApart(c: Connection, now: nat, luck: Luck) returns (n: int, ghost q: Payload?)
      requires Memory() && Tabled() && c in net.conns
      modifies this`net, this`Repr, Repr
      ensures Memory() && Tabled() && unchanged(connections)
      ensures Sound(old(net.conns), old(net.ledger)) && OwnsIts(c, old(net.conns)[c], old(net.ledger))
      ensures q == null ==> Repr == old(Repr)
      ensures q != null ==> fresh(q) && q !in old(net.ledger) && Repr == old(Repr) + {q}
      ensures n == Judged(old(net.conns)[c], now, luck).verdict
      ensures Judged(old(net.conns)[c], now, luck).action == Idle ==> q != null
      ensures net == Handled(old(net), c, now, luck, q)
    {
      n, q := Handle(c, now, luck);
    }

    /** The end of a connection: its connect payload is released, then each payload in its queue, once. */
    method Free(c: Connection)
      requires Memory() && c in net.conns
      modifies this`net, Live(net.ledger)
      ensures OwnsIts(c, old(net.conns)[c], old(net.ledger))
      ensures Memory()
      ensures net == Net(old(net.conns) - {c}, Given(old(net.ledger), c, old(net.conns)[c]), old(net.log))
    {
      ghost var m := net;
      assert Sound(m.conns, m.ledger);
      ghost var cell := m.conns[c];
      assert OwnsIts(c, cell, m.ledger) && HoldsConn(c, cell);
      OwnsRestOfQueue(m.ledger, c, cell);
      TornSound(m.conns, m.ledger, c);
      assert HoldsPayload(cell.slot, m.ledger[cell.slot]);
      ghost var l1 := Released(m.ledger, cell.slot, Slot(c));
      if c.connPayload != null {
        var error, freed := c.connPayload.Release();
      }
      forall q | q in l1 ensures HoldsPayload(q, l1[q]) {
        assert old(HoldsPayload(q, m.ledger[q]));
      }
      ReleaseEach(c.outgoing, l1, Queue(c));
      net := Net(m.conns - {c}, Given(m.ledger, c, cell), m.log);
      forall d | d in net.conns ensures d in Repr && HoldsConn(d, net.conns[d]) {
        assert old(HoldsConn(d, m.conns[d]));
      }
      forall q | q in net.ledger ensures q in Repr && HoldsPayload(q, net.ledger[q]) {
        assert q in m.ledger.Keys;
        assert old(HoldsPayload(q, m.ledger[q]));
      }
    }

    ghost method Tell(notes: seq<Note>)
      requires Memory()
      modifies this`net
      ensures Memory() && net == old(net).(log := old(net.log) + notes)
    {
      ghost var m := net;
      net := m.(log := m.log + notes);
      forall d | d in net.conns ensures d in Repr && HoldsConn(d, net.conns[d]) {
        assert old(HoldsConn(d, m.conns[d]));
      }
      forall q | q in net.ledger ensures q in Repr && HoldsPayload(q, net.ledger[q]) {
        assert old(HoldsPayload(q, m.ledger[q]));
      }
    }

    /** Taking a connection out of the table. `p` is where it stood in the order of the table. */
    method Unlist(c: Connection) returns (removed: int, ghost p: nat)
      requires Tabled() && c in net.conns
      modifies connections.Repr
      ensures Listed() && unchanged(connections`Repr) && removed == 1
      ensures Agreed(net.conns.Keys - {c}, connections.Contents())
      ensures TookOut(old(connections.model), connections.model, c.addr, p)
    {
      assert c.addr in connections.Contents();
      removed, p := connections.Remove(c.addr);
    }

    /** The same, as the table sees it: it is not concerned. */
    method FreeApart(c: Connection)
      requires Memory() && Listed() && c in net.conns
      modifies this`net, Repr
      ensures OwnsIts(c, old(net.conns)[c], old(net.ledger))
      ensures Memory() && Listed()
      ensures net == Net(old(net.conns) - {c}, Given(old(net.ledger), c, old(net.conns)[c]), old(net.log))
      ensures net.conns.Keys == old(net.conns.Keys) - {c}
    {
      ghost var conns := net.conns;
      forall q | q in net.ledger ensures q in Repr {
        assert HoldsPayload(q, net.ledger[q]);
      }
      Free(c);
      KeysWithout(conns, c);
    }

    /** A connection is taken out of the table and freed. */
    method Leave(c: Connection) returns (ghost p: nat)
      requires Memory() && Tabled() && c in net.conns
      modifies this`net, connections.Repr, Repr
      ensures OwnsIts(c, old(net.conns)[c], old(net.ledger))
      ensures Memory() && Tabled() && unchanged(connections`Repr)
      ensures net == Net(old(net.conns) - {c}, Given(old(net.ledger), c, old(net.conns)[c]), old(net.log))
      ensures TookOut(old(connections.model), connections.model, c.addr, p)
    {
      var removed;
      removed, p := Unlist(c);
      FreeApart(c);
    }

    /** The application is told of the end of a connection that got past connecting. */
    method Announce(c: Connection)
      requires Memory() && c in net.conns
      modifies this`net
      ensures Memory() && net == old(net).(log := old(net.log) + Farewell(old(net.conns)[c].timer, c))
    {
      assert HoldsConn(c, net.conns[c]);
      if c.phase != Preconnect && c.phase != Initial {
        Tell([Disconnected(c)]);
      }
    }

    /** `udp_client_connection_destroy`. */
    method Destroy(c: Connection) returns (ghost p: nat)
      requires Memory() && Tabled() && c in net.conns
      modifies this`net, connections.Repr, Repr
      ensures OwnsIts(c, old(net.conns)[c], old(net.ledger))
      ensures Memory() && Tabled() && unchanged(connections`Repr)
      ensures net == Destroyed(old(net), c)
      ensures TookOut(old(connections.model), connections.model, c.addr, p)
    {
      Announce(c);
      p := Leave(c);
    }

    /** One turn of the loop of `udp_client_poll`. */
    method Turn(c: Connection, now: nat, luck: Luck) returns (n: int, ghost q: Payload?, ghost p: nat)
      requires Memory() && Tabled() && c in net.conns
      modifies this`net, this`Repr, connections.Repr, Repr
      ensures Sound(old(net.conns), old(net.ledger))
      ensures Judged(old(net.conns)[c], now, luck).action == Idle ==> q != null && q !in old(net.ledger)
      ensures Memory() && Tabled() && unchanged(connections`Repr)
      ensures q == null ==> Repr == old(Repr)
      ensures q != null ==> fresh(q) && Repr == old(Repr) + {q}
      ensures n == Judged(old(net.conns)[c], now, luck).verdict
      ensures net == Turned(old(net), c, now, luck, q)
      ensures if n == -1 then TookOut(old(connections.model), connections.model, c.addr, p)
              else connections.model == old(connections.model)
    {
      p := 0;
      n, q := HandleApart(c, now, luck);
      if n == -1 {
        p := Destroy(c);
      }
    }

    // ---------------------------------------------------------------------------------- polling

    /** The connections at the nodes of the table, in their order. */
    static ghost function Items(nodes: seq<HashTables.HashNode<Connection>>,
        cells: map<HashTables.HashNode<Connection>, HashTables.Cell<Connection>>): (items: seq<Connection>)
      requires forall n :: n in nodes ==> n in cells
      ensures |items| == |nodes| && forall j :: 0 <= j < |nodes| ==> items[j] == cells[nodes[j]].item
    {
      if nodes == [] then [] else Items(nodes[..|nodes| - 1], cells) + [cells[nodes[|nodes| - 1]].item]
    }

    /** The table's order lists each live connection once. */
    lemma {:induction false} Listing(m: HashTables.Model<Connection, Addr>, conns: set<Connection>)
      requires connections.Sound(m) && connections.keyOf == AddrOf && connections.canon == Itself
      requires Agreed(conns, m.contents)
      ensures forall n :: n in Chains.Flat(m.chains) ==> n in m.cells && m.cells[n].item.addr in m.nodes && m.nodes[m.cells[n].item.addr] == n
      ensures var items := Items(Chains.Flat(m.chains), m.cells);
              Chains.Distinct(items) && forall c :: c in items <==> c in conns
    {
      connections.OrderIsContents(m);
      var order := Chains.Flat(m.chains);
      var items := Items(order, m.cells);
      forall n | n in order ensures m.cells[n].item.addr in m.nodes && m.nodes[m.cells[n].item.addr] == n {
        assert connections.Class(m.cells[n].item) == m.cells[n].item.addr;
      }
      forall i, j | 0 <= i < j < |items| ensures items[i] != items[j] {
        Chains.DistinctApart(order, i, j);
      }
      Chains.AllApart(items);
      forall c | c in items ensures c in conns {
        var j :| 0 <= j < |items| && items[j] == c;
        assert c.addr in m.contents;
      }
      forall c | c in conns ensures c in items {
        assert m.contents[c.addr] == c;
        var n := m.nodes[c.addr];
        var j :| 0 <= j < |order| && order[j] == n;
        assert items[j] == c;
      }
    }

    /** These are the last nodes of the table, in order, and hold these connections. */
    static ghost predicate Rest(m: HashTables.Model<Connection, Addr>,
        rest: seq<HashTables.HashNode<Connection>>, coming: seq<Connection>) {
      && Chains.Suffix(rest, Chains.Flat(m.chains))
      && |rest| == |coming|
      && forall j {:trigger coming[j]} :: 0 <= j < |coming| ==> rest[j] in m.cells && m.cells[rest[j]].item == coming[j]
    }

    /** What the iterator has ahead are the nodes of these connections. */
    ghost predicate Coming(iter: HashTables.HashIterator<Connection, Addr>, coming: seq<Connection>)
      reads iter, connections
    {
      iter.table == connections && connections.Ahead(iter.node, iter.rest) && Rest(connections.model, iter.rest, coming)
    }

    static lemma {:induction false} RestTail(m: HashTables.Model<Connection, Addr>,
        rest: seq<HashTables.HashNode<Connection>>, coming: seq<Connection>)
      requires Rest(m, rest, coming) && coming != []
      ensures rest != [] && rest[0] in m.cells && m.cells[rest[0]].item == coming[0]
      ensures Rest(m, rest[1..], coming[1..])
    {
      var c := coming[0];
      Chains.SuffixTail(rest, Chains.Flat(m.chains));
      forall j | 0 <= j < |coming| - 1
        ensures rest[1..][j] in m.cells && m.cells[rest[1..][j]].item == coming[1..][j]
      {
        assert coming[1..][j] == coming[j + 1] && rest[1..][j] == rest[j + 1];
      }
    }

    /** Taking down another connection leaves the rest where it was. */
    lemma {:induction false} RestStays(before: HashTables.Model<Connection, Addr>, after: HashTables.Model<Connection, Addr>,
        rest: seq<HashTables.HashNode<Connection>>, coming: seq<Connection>, c: Connection, p: nat)
      requires connections.canon == Itself && connections.keyOf == AddrOf
      requires connections.Sound(before) && connections.Sound(after)
      requires c.addr in before.contents && before.contents[c.addr] == c && c !in coming
      requires Rest(before, rest, coming) && TookOut(before, after, c.addr, p)
      ensures Rest(after, rest, coming)
    {
      connections.OrderIsContents(before);
      connections.OrderIsContents(after);
      var order := Chains.Flat(before.chains);
      forall j | 0 <= j < |rest| ensures rest[j] != order[p] {
        assert before.cells[rest[j]].item == coming[j];
      }
      Chains.SuffixSurvives(rest, order, p);
      forall j | 0 <= j < |coming| ensures rest[j] in after.cells && after.cells[rest[j]].item == coming[j] {
        Chains.SuffixMember(rest, Chains.Flat(after.chains), j);
        assert before.cells[rest[j]].item == coming[j];
      }
    }

    /** `hash_table_next`, as it concerns connections. */
    method Advance(iter: HashTables.HashIterator<Connection, Addr>, ghost coming: seq<Connection>)
      returns (r: HashTables.Ref<Connection>)
      requires Memory() && Listed() && iter !in connections.Repr && iter !in Repr && Coming(iter, coming)
      modifies iter
      ensures Memory() && Listed()
      ensures r == Upcoming(coming) && Coming(iter, Tail(coming))
    {
      ghost var m, rest := connections.model, iter.rest;
      if coming != [] {
        RestTail(m, rest, coming);
        assert connections.Holds(rest[0], m.cells[rest[0]]);
      }
      r := iter.Next();
    }

    /** All the connections, each once, in the order of the table. */
    lemma {:induction false} All() returns (order: seq<Connection>)
      requires Tabled()
      ensures Rest(connections.model, connections.Order(), order)
      ensures Lists(order, net.conns.Keys)
    {
      var m, nodes := connections.model, connections.Order();
      Listing(m, net.conns.Keys);
      order := Items(nodes, m.cells);
      assert nodes[|nodes| - |nodes|..] == nodes;
    }

    /** `hash_table_begin`, as it concerns connections. */
    method First(iter: HashTables.HashIterator<Connection, Addr>, ghost order: seq<Connection>)
      returns (r: HashTables.Ref<Connection>)
      requires connections.Valid() && connections.pointers && iter !in connections.Repr
      requires Rest(connections.model, connections.Order(), order)
      modifies iter
      ensures r == Upcoming(order) && Coming(iter, Tail(order))
    {
      ghost var m, nodes := connections.model, connections.Order();
      if order != [] {
        RestTail(m, nodes, order);
        assert connections.Holds(nodes[0], m.cells[nodes[0]]);
      }
      r := connections.Begin(iter);
    }

    method Start(iter: HashTables.HashIterator<Connection, Addr>, ghost order: seq<Connection>)
      returns (r: HashTables.Ref<Connection>)
      requires Memory() && Listed() && iter !in connections.Repr && iter !in Repr
      requires Rest(connections.model, connections.Order(), order)
      modifies iter
      ensures Memory() && Listed()
      ensures r == Upcoming(order) && Coming(iter, Tail(order))
    {
      r := First(iter, order);
    }

    /** A turn, while an iteration is under way. */
    method Round(iter: HashTables.HashIterator<Connection, Addr>, c: Connection, now: nat, luck: Luck,
        ghost coming: seq<Connection>)
      returns (n: int, ghost q: Payload?)
      requires Memory() && Tabled() && c in net.conns && c !in coming
      requires iter !in connections.Repr && iter !in Repr && Coming(iter, coming)
      modifies this`net, this`Repr, connections.Repr, Repr
      ensures Sound(old(net.conns), old(net.ledger))
      ensures Judged(old(net.conns)[c], now, luck).action == Idle ==> q != null && q !in old(net.ledger)
      ensures Memory() && Tabled() && unchanged(connections`Repr)
      ensures q == null ==> Repr == old(Repr)
      ensures q != null ==> fresh(q) && Repr == old(Repr) + {q}
      ensures n == Judged(old(net.conns)[c], now, luck).verdict
      ensures net == Turned(old(net), c, now, luck, q)
      ensures Coming(iter, coming)
    {
      ghost var m, rest := connections.model, iter.rest;
      assert connections.Sound(m) && m.contents[c.addr] == c && Rest(m, rest, coming);
      ghost var p;
      n, q, p := Turn(c, now, luck);
      if n == -1 {
        RestStays(m, connections.model, rest, coming, c, p);
      }
    }

    /** One time around the loop of `udp_client_poll`. */
    method Around(iter: HashTables.HashIterator<Connection, Addr>, c: Connection, now: nat, luck: Luck,
        ghost coming: seq<Connection>)
      returns (n: int, r: HashTables.Ref<Connection>, ghost q: Payload?)
      requires Memory() && Tabled() && c in net.conns && c !in coming
      requires iter !in connections.Repr && iter !in Repr && Coming(iter, coming)
      modifies this`net, this`Repr, connections.Repr, Repr, iter
      ensures Memory() && Tabled() && unchanged(connections`Repr)
      ensures forall o :: o in Repr ==> o in old(Repr) || fresh(o)
      ensures q != null ==> fresh(q)
      ensures n == Judged(old(net.conns)[c], now, luck).verdict
      ensures CanTurn(old(net), c, now, luck, q) && net == Turned(old(net), c, now, luck, q)
      ensures r == Upcoming(coming) && Coming(iter, Tail(coming))
    {
      n, q := Round(iter, c, now, luck, coming);
      r := Advance(iter, coming);
      assert Agreed(net.conns.Keys, connections.Contents());
    }

    /** The body of the loop. */
    method SweepOne(iter: HashTables.HashIterator<Connection, Addr>, c: Connection, now: nat,
        luck: Connection -> Luck, done0: int, ghost before: Net, ghost order: seq<Connection>, ghost j: Journey)
      returns (done: int, r: HashTables.Ref<Connection>, ghost j': Journey)
      requires Memory() && Tabled() && iter !in connections.Repr && iter !in Repr
      requires Lists(order, before.conns.Keys) && Underway(j, order, before, now, luck, Stop(net, done0))
      requires HashTables.Pointer(c) == Upcoming(Still(order, j.at)) && Coming(iter, Tail(Still(order, j.at)))
      modifies this`net, this`Repr, connections.Repr, Repr, iter
      ensures Memory() && Tabled() && unchanged(connections`Repr)
      ensures forall o :: o in Repr ==> o in old(Repr) || fresh(o)
      ensures Underway(j', order, before, now, luck, Stop(net, done))
      ensures j'.at == j.at + 1 && forall q :: q in j'.made ==> q in j.made || q == null || fresh(q)
      ensures r == Upcoming(Still(order, j'.at)) && Coming(iter, Tail(Still(order, j'.at)))
    {
      ghost var m := net;
      NextIs(j, order, before, now, luck, Stop(m, done0));
      done := done0;
      var n; ghost var q;
      n, r, q := Around(iter, c, now, luck(c), Still(order, j.at + 1));
      if n != -1 {
        done := done + n;
      }
      j' := Onward(j, order, before, now, luck, Stop(m, done0), q, Stop(net, done));
    }

    /** The loop. */
    method Sweep(iter: HashTables.HashIterator<Connection, Addr>, r0: HashTables.Ref<Connection>, now: nat,
        luck: Connection -> Luck, ghost order: seq<Connection>)
      returns (done: int, ghost j: Journey)
      requires Memory() && Tabled() && iter !in connections.Repr && iter !in Repr
      requires Lists(order, net.conns.Keys)
      requires r0 == Upcoming(Still(order, 0)) && Coming(iter, Tail(Still(order, 0)))
      modifies this`net, this`Repr, connections.Repr, Repr, iter
      ensures Memory() && Tabled() && unchanged(connections`Repr)
      ensures forall o :: o in Repr ==> o in old(Repr) || fresh(o)
      ensures forall q :: q in j.made ==> q == null || fresh(q)
      ensures Underway(j, order, old(net), now, luck, Stop(net, done)) && j.at == |order|
    {
      ghost var before := net;
      j, done := Journey(0, [], [Stop(before, 0)]), 0;
      var r := r0;
      while r.Pointer?
        invariant Memory() && Tabled() && unchanged(connections`Repr)
        invariant forall o :: o in Repr ==> o in old(Repr) || fresh(o)
        invariant forall q :: q in j.made ==> q == null || fresh(q)
        invariant Underway(j, order, before, now, luck, Stop(net, done))
        invariant iter !in Repr && r == Upcoming(Still(order, j.at)) && Coming(iter, Tail(Still(order, j.at)))
        decreases |order| - j.at
      {
        done, r, j := SweepOne(iter, r.item, now, luck, done, before, order, j);
      }
      AllHaveCome(order, j.at);
    }

    /** `udp_client_poll`: each connection there is has one turn, in the order of the table. So the handler of
        each runs once; the connections whose handler says -1 are taken down, and no others; the rest of the
        results is added up; the application holds what it held; and only sends in vain lose references. */
    method Poll(now: nat, luck: Connection -> Luck)
      returns (done: int, ghost order: seq<Connection>, ghost j: Journey)
      requires Memory() && Tabled()
      modifies this`net, this`Repr, connections.Repr, Repr
      ensures Memory() && Tabled() && Sound(net.conns, net.ledger)
      ensures unchanged(connections`Repr) && forall o :: o in Repr ==> o in old(Repr) || fresh(o)
      ensures Lists(order, old(net.conns).Keys) && forall q :: q in j.made ==> q == null || fresh(q)
      ensures Rest(old(connections.model), old(connections.Order()), order)
      ensures Turns(j, order, old(net), now, luck, net, done)
      ensures forall c :: c in old(net.conns) ==> HandledOnce(old(net.conns), net.conns, c, now, luck(c))
      ensures forall c :: c in net.conns ==> c in old(net.conns)
      ensures Result(old(net.conns), order, now, luck, done)
      ensures net.log == old(net.log) + Tellings(old(net.conns), order, |order|, now, luck)
      ensures AppKept(old(net.ledger), net.ledger) && PinsKept(old(net.ledger), net.ledger)
      ensures LostInVain(old(net.ledger), net.ledger, old(net.conns), order, now, luck)
    {
      done, order, j := PollAll(now, luck);
      PollIs(j, order, old(net), now, luck, net, done);
    }

    method PollAll(now: nat, luck: Connection -> Luck)
      returns (done: int, ghost order: seq<Connection>, ghost j: Journey)
      requires Memory() && Tabled()
      modifies this`net, this`Repr, connections.Repr, Repr
      ensures Memory() && Tabled()
      ensures unchanged(connections`Repr) && forall o :: o in Repr ==> o in old(Repr) || fresh(o)
      ensures Lists(order, old(net.conns).Keys) && forall q :: q in j.made ==> q == null || fresh(q)
      ensures Rest(old(connections.model), old(connections.Order()), order)
      ensures Turns(j, order, old(net), now, luck, net, done)
    {
      order := All();
      var iter := new HashTables.HashIterator();
      var r := Start(iter, order);
      assert Still(order, 0) == order;
      done, j := Sweep(iter, r, now, luck, order);
    }

    /** One poll, while every handler's sends go through. */
    method PollOne(times: seq<nat>, i: nat, ghost before: map<Connection, Cell>, ghost start: nat,
        ghost fates: Fates)
      requires Memory() && Tabled() && i < |times|
      requires Foretold(fates, before, start, times) && AllTracked(before, net.conns, fates[i], i)
      modifies this`net, this`Repr, connections.Repr, Repr
      ensures Memory() && Tabled() && unchanged(connections`Repr)
      ensures forall o :: o in Repr ==> o in old(Repr) || fresh(o)
      ensures AllTracked(before, net.conns, fates[i + 1], i + 1)
    {
      ghost var mid := net.conns;
      var _, _, _ := Poll(times[i], Fine);
      AllTrackedOn(before, mid, net.conns, fates, start, times, i);
    }

    /** Polls at these times: each connection fares as the timers say. */
    method PollEach(times: seq<nat>, ghost start: nat) returns (ghost fates: Fates)
      requires Memory() && Tabled()
      modifies this`net, this`Repr, connections.Repr, Repr
      ensures Memory() && Tabled() && unchanged(connections`Repr)
      ensures forall o :: o in Repr ==> o in old(Repr) || fresh(o)
      ensures Foretold(fates, old(net.conns), start, times)
      ensures AllTracked(old(net.conns), net.conns, fates[|times|], |times|)
    {
      ghost var before := net.conns;
      fates := Foretell(before, start, times);
      NotPolled(before, fates, start, times);
      var i := 0;
      while i < |times|
        invariant 0 <= i <= |times|
        invariant Memory() && Tabled() && unchanged(connections`Repr)
        invariant forall o :: o in Repr ==> o in old(Repr) || fresh(o)
        invariant AllTracked(before, net.conns, fates[i], i)
      {
        PollOne(times, i, before, start, fates);
        i := i + 1;
      }
    }

    // ---------------------------------------------------------------------------------- connecting

    /** A payload for the connect packet, where the caller has given none. */
    method PayloadGet() returns (payload: Payload)
      requires Memory()
      modifies this`net, this`Repr
      ensures Memory() && fresh(payload) && payload !in old(net.ledger) && Repr == old(Repr) + {payload}
      ensures net == old(net).(ledger := Issued(old(net.ledger), payload))
    {
      ghost var m := net;
      forall r | r in m.ledger ensures r in Repr {
        assert HoldsPayload(r, m.ledger[r]);
      }
      payload := new Payload();
      IssuedSound(m.conns, m.ledger, payload);
      net := m.(ledger := Issued(m.ledger, payload));
      Repr := Repr + {payload};
      forall d | d in net.conns ensures d in Repr && HoldsConn(d, net.conns[d]) {
        assert old(HoldsConn(d, m.conns[d]));
      }
      forall r | r in net.ledger ensures r in Repr && HoldsPayload(r, net.ledger[r]) {
        assert r != payload ==> old(HoldsPayload(r, m.ledger[r]));
      }
    }

    /** An error is reported, and the reference that came with the call, if any, is released. */
    method Refuse(payload: Payload?)
      requires Memory() && (payload != null ==> payload in net.ledger && App in net.ledger[payload].owners)
      modifies this`net, payload
      ensures Memory() && net == Refused(old(net), payload)
    {
      ghost var m := net;
      RefusedSound(m, payload);
      if payload != null {
        assert HoldsPayload(payload, m.ledger[payload]);
        var error, freed := payload.Release();
      }
      net := Refused(m, payload);
      forall d | d in net.conns ensures d in Repr && HoldsConn(d, net.conns[d]) {
        assert old(HoldsConn(d, m.conns[d]));
      }
      forall r | r in net.ledger ensures r in Repr && HoldsPayload(r, net.ledger[r]) {
        assert old(HoldsPayload(r, m.ledger[r]));
      }
    }

    /** A new connection takes the payload over. */
    method Join(addr: Addr, payload: Payload) returns (c: Connection)
      requires Memory() && payload in net.ledger && App in net.ledger[payload].owners
      modifies this`net, this`Repr
      ensures Memory() && fresh(c) && c.addr == addr && Repr == old(Repr) + {c}
      ensures c !in old(net.conns) && net == Admitted(old(net), c, payload)
    {
      ghost var m := net;
      forall d | d in m.conns ensures d in Repr {
        assert HoldsConn(d, m.conns[d]);
      }
      c := new Connection(addr, payload);
      AdmittedSound(m, c, payload);
      net := Admitted(m, c, payload);
      Repr := Repr + {c};
      forall d | d in net.conns ensures d in Repr && HoldsConn(d, net.conns[d]) {
        assert d != c ==> old(HoldsConn(d, m.conns[d]));
      }
      forall r | r in net.ledger ensures r in Repr && HoldsPayload(r, net.ledger[r]) {
        assert old(HoldsPayload(r, m.ledger[r]));
      }
    }

    /** A connection that has joined is entered in the table. */
    method Enlist(c: Connection, topMalloc: bool, nodeMalloc: bool) returns (entered: bool)
      requires Listed() && c in net.conns
      requires Agreed(net.conns.Keys - {c}, connections.Contents()) && c.addr !in connections.Contents()
      modifies connections.Repr
      ensures entered == ((old(connections.top) != null || topMalloc) && nodeMalloc)
      ensures entered ==> Tabled()
      ensures forall o :: o in connections.Repr ==> o in old(connections.Repr) || fresh(o)
    {
      var prev; ghost var how, p;
      prev, how, p := connections.Assign(c, topMalloc, nodeMalloc);
      assert connections.Class(c) == c.addr;
      entered := prev == HashTables.Pointer(c);
    }

    /** The second half of `udp_client_connect`, once there is a payload. */
    method ConnectWith(addr: Addr, payload: Payload, connMalloc: bool, topMalloc: bool, nodeMalloc: bool)
      returns (ending: Ending, c: Connection?)
      requires Memory() && Tabled() && addr !in connections.Contents()
      requires payload in net.ledger && App in net.ledger[payload].owners && payload in Repr
      modifies this`net, this`Repr, connections.Repr, payload
      ensures ending != Aborted ==> Memory() && Tabled()
      ensures forall o :: o in Repr ==> o in old(Repr) || fresh(o)
      ensures forall o :: o in connections.Repr ==> o in old(connections.Repr) || fresh(o)
      ensures ending ==
        if !connMalloc then NoMemory
        else if (old(connections.top) != null || topMalloc) && nodeMalloc then Made
        else Aborted
      ensures ending == NoMemory ==> c == null && net == Refused(old(net), payload)
      ensures ending == Made ==>
                c != null && fresh(c) && c.addr == addr && c !in old(net.conns) && net == Admitted(old(net), c, payload)
    {
      if !connMalloc {
        Refuse(payload);
        return NoMemory, null;
      }
      c := Join(addr, payload);
      var entered := Enlist(c, topMalloc, nodeMalloc);
      ending := if entered then Made else Aborted;
    }

    /** The same, with a payload made for the purpose. */
    method ConnectWithout(addr: Addr, connMalloc: bool, topMalloc: bool, nodeMalloc: bool)
      returns (ending: Ending, c: Connection?, ghost got: Payload)
      requires Memory() && Tabled() && addr !in connections.Contents()
      modifies this`net, this`Repr, connections.Repr
      ensures ending != Aborted ==> Memory() && Tabled()
      ensures forall o :: o in Repr ==> o in old(Repr) || fresh(o)
      ensures forall o :: o in connections.Repr ==> o in old(connections.Repr) || fresh(o)
      ensures ending ==
        if !connMalloc then NoMemory
        else if (old(connections.top) != null || topMalloc) && nodeMalloc then Made
        else Aborted
      ensures ending == NoMemory ==> c == null && net == Refused(old(net), null)
      ensures ending == Made ==>
                && c != null && fresh(c) && c.addr == addr && c !in old(net.conns) && fresh(got)
                && net == Admitted(old(net).(ledger := Issued(old(net.ledger), got)), c, got)
    {
      ghost var l := net.ledger;
      var p := PayloadGet();
      got := p;
      IssuedAndReleased(l, p);
      ending, c := ConnectWith(addr, p, connMalloc, topMalloc, nodeMalloc);
    }

    /** A refusal, as the table sees it: it is not concerned. */
    method RefuseApart(payload: Payload?)
      requires Memory() && Tabled() && (payload != null ==> payload in net.ledger && App in net.ledger[payload].owners)
      requires payload != null ==> payload in Repr
      modifies this`net, payload
      ensures Memory() && Tabled() && net == Refused(old(net), payload)
    {
      Refuse(payload);
    }

    /** The address is not in the table. */
    method ConnectNew(addr: Addr, payload: Payload?, connMalloc: bool, topMalloc: bool, nodeMalloc: bool)
      returns (ending: Ending, c: Connection?, ghost got: Payload?)
      requires Memory() && Tabled() && addr !in connections.Contents()
      requires payload != null ==> payload in net.ledger && App in net.ledger[payload].owners && payload in Repr
      modifies this`net, this`Repr, connections.Repr, payload
      ensures ending != Aborted ==> Memory() && Tabled()
      ensures forall o :: o in Repr ==> o in old(Repr) || fresh(o)
      ensures forall o :: o in connections.Repr ==> o in old(connections.Repr) || fresh(o)
      ensures ending ==
        if !connMalloc then NoMemory
        else if (old(connections.top) != null || topMalloc) && nodeMalloc then Made
        else Aborted
      ensures ending == NoMemory ==> c == null && net == Refused(old(net), payload)
      ensures ending == Made ==> c != null && fresh(c) && c.addr == addr && c !in old(net.conns) && got != null
      ensures ending == Made && payload != null ==> got == payload && net == Admitted(old(net), c, got)
      ensures ending == Made && payload == null ==>
                fresh(got) && net == Admitted(old(net).(ledger := Issued(old(net.ledger), got)), c, got)
    {
      got := payload;
      if payload == null {
        ending, c, got := ConnectWithout(addr, connMalloc, topMalloc, nodeMalloc);
      } else {
        ending, c := ConnectWith(addr, payload, connMalloc, topMalloc, nodeMalloc);
      }
    }

    /** `udp_client_connect`. The flags say which allocations succeed. `got` is the connect payload: the
        caller's, or a new one. */
    method Connect(addr: Addr, payload: Payload?, connMalloc: bool, topMalloc: bool, nodeMalloc: bool)
      returns (ending: Ending, c: Connection?, ghost got: Payload?)
      requires Memory() && Tabled()
      requires payload != null ==> payload in net.ledger && App in net.ledger[payload].owners
      modifies this`net, this`Repr, connections.Repr, payload
      ensures ending != Aborted ==> Memory() && Tabled()
      ensures forall o :: o in Repr ==> o in old(Repr) || fresh(o)
      ensures forall o :: o in connections.Repr ==> o in old(connections.Repr) || fresh(o)
      ensures ending ==
        if addr in old(connections.Contents()) then Duplicate
        else if !connMalloc then NoMemory
        else if (old(connections.top) != null || topMalloc) && nodeMalloc then Made
        else Aborted
      ensures ending == Duplicate || ending == NoMemory ==> c == null && net == Refused(old(net), payload)
      ensures ending == Duplicate || ending == NoMemory ==>
                net.log == old(net.log) + [ErrorNoted] && net.conns == old(net.conns)
      ensures ending == Made ==> c != null && fresh(c) && c.addr == addr && c !in old(net.conns) && got != null
      ensures ending == Made ==>
                net.log == old(net.log) && net.conns == old(net.conns)[c := Cell(Timer(Preconnect, 0, 0, 0), got, [])]
      ensures ending == Made && payload != null ==> got == payload && net == Admitted(old(net), c, got)
      ensures ending == Made && payload == null ==>
                fresh(got) && net == Admitted(old(net).(ledger := Issued(old(net.ledger), got)), c, got)
    {
      got := payload;
      if payload != null {
        assert HoldsPayload(payload, net.ledger[payload]);
      }
      var found := connections.Find(addr);
      if found != HashTables.Null {
        RefuseApart(payload);
        return Duplicate, null, got;
      }
      ending, c, got := ConnectNew(addr, payload, connMalloc, topMalloc, nodeMalloc);
    }

    // ---------------------------------------------------------------------------------- going away

    /** `udp_client_disconnect`; `sent` says whether the disconnect packet goes out. */
    method Disconnect(c: Connection, sent: bool)
      requires Memory() && Tabled() && c in net.conns
      modifies this`net, connections.Repr, Repr
      ensures OwnsIts(c, old(net.conns)[c], old(net.ledger))
      ensures Memory() && Tabled() && unchanged(connections`Repr)
      ensures net == Net(old(net.conns) - {c}, Given(old(net.ledger), c, old(net.conns)[c]),
                         old(net.log) + if sent then [Disconnected(c)] else [ErrorNoted, Disconnected(c)])
    {
      Tell(if sent then [Disconnected(c)] else [ErrorNoted, Disconnected(c)]);
      ghost var p := Leave(c);
    }

    /** The loop of `udp_client_terminate`. */
    method FreeAll()
      requires Memory() && Tabled()
      modifies this`net, Repr
      ensures Memory() && Listed() && net.conns == map[] && net.log == old(net.log)
      ensures OnlyGiven(old(net.ledger), net.ledger)
    {
      ghost var left := All();
      var iter := new HashTables.HashIterator();
      var r := Start(iter, left);
      while r.Pointer?
        invariant Memory() && Listed() && unchanged(this`Repr)
        invariant fresh(iter) && Coming(iter, Tail(left))
        invariant r == Upcoming(left) && Lists(left, net.conns.Keys)
        invariant net.log == old(net.log) && OnlyGiven(old(net.ledger), net.ledger)
        decreases |left|
      {
        ghost var l := net.ledger;
        r := FreeNext(iter, r.item, left);
        OnlyGivenTwice(old(net.ledger), l, net.ledger);
        left := Tail(left);
      }
      assert net.conns == map[];
    }

    /** Its body: the node stays in the table, and the iterator moves on. */
    method FreeNext(iter: HashTables.HashIterator<Connection, Addr>, c: Connection, ghost left: seq<Connection>)
      returns (r: HashTables.Ref<Connection>)
      requires Memory() && Listed() && iter !in connections.Repr && iter !in Repr
      requires left != [] && c == left[0] && Lists(left, net.conns.Keys) && Coming(iter, Tail(left))
      modifies this`net, Repr, iter
      ensures Memory() && Listed() && net.log == old(net.log) && OnlyGiven(old(net.ledger), net.ledger)
      ensures r == Upcoming(Tail(left)) && Coming(iter, Tail(Tail(left)))
      ensures Lists(Tail(left), net.conns.Keys)
    {
      ListsTail(left, net.conns.Keys);
      FreeListed(iter, c, Tail(left));
      r := Advance(iter, Tail(left));
    }

    method FreeListed(iter: HashTables.HashIterator<Connection, Addr>, c: Connection, ghost coming: seq<Connection>)
      requires Memory() && Listed() && iter !in connections.Repr && iter !in Repr
      requires c in net.conns && Coming(iter, coming)
      modifies this`net, Repr
      ensures Memory() && Listed() && Coming(iter, coming)
      ensures net.log == old(net.log) && net.conns.Keys == old(net.conns.Keys) - {c}
      ensures OnlyGiven(old(net.ledger), net.ledger)
    {
      ghost var m := net;
      assert Sound(m.conns, m.ledger);
      FreeApart(c);
      GivenOnly(m.ledger, c, m.conns[c]);
    }

    method DropTable()
      requires Memory() && Listed()
      modifies connections
      ensures Memory() && !connections.ready && connections.top == null && connections.Contents() == map[]
    {
      ghost var freed := connections.Deinit();
    }

    /** `udp_client_terminate`: every connection is freed, and then the table. What they owned is released, once
        each: a payload is left exactly if it is pinned, or the application or failed sends own it, and then
        with just these owners. */
    method Terminate()
      requires Memory() && Tabled()
      modifies this`net, connections, Repr
      ensures Memory() && !connections.ready && connections.top == null && connections.Contents() == map[]
      ensures net.conns == map[] && net.log == old(net.log)
      ensures net.ledger.Keys <= old(net.ledger).Keys
      ensures forall q :: q in old(net.ledger) ==>
                SettledFor(Pinned(old(net.ledger), q), Unconnected(old(net.ledger)[q].owners), net.ledger, q)
    {
      ghost var l := net.ledger;
      FreeAll();
      DropTable();
      forall q | q in l ensures SettledFor(Pinned(l, q), Unconnected(l[q].owners), net.ledger, q) {
        AllGiven(l, net.ledger, q);
      }
    }
  }
}
