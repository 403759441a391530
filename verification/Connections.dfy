/** The connections of a client and the payloads they own. */
module Connections {
  import opened Payloads
  import opened Timers
  import opened HashPod
  import opened Vectors
  import Chains

  type Addr = seq<Byte>

  /** `udp_client_connection_t`. */
  class Connection {
    const addr: Addr
    var connPayload: Payload?
    var outgoing: seq<Payload>
    var lastTransmit: nat
    var lastReceive: nat
    var ntransmit: nat
    var phase: Phase

    constructor (addr: Addr, payload: Payload?)
      ensures this.addr == addr && connPayload == payload && outgoing == []
      ensures Timer(phase, lastTransmit, lastReceive, ntransmit) == NEW
    {
      this.addr, connPayload, outgoing := addr, payload, [];
      phase, lastTransmit, lastReceive, ntransmit := Preconnect, 0, 0, 0;
    }
  }

  datatype Cell = Cell(timer: Timer, slot: Payload?, queue: seq<Payload>)

  /** What the application is told: an error, or that a connection is gone. */
  datatype Note = ErrorNoted | Disconnected(conn: Connection)

  /** The live connections and payloads, and what the application has been told. */
  datatype Net = Net(conns: map<Connection, Cell>, ledger: Ledger<Connection>, log: seq<Note>)

  // ------------------------------------------------------------------------------------ what is kept

  /** A connection owns its connect payload once, and each payload in its queue as often as it stands there. */
  ghost predicate OwnsIts(c: Connection, cell: Cell, ledger: Ledger<Connection>) {
    && cell.slot != null && cell.slot in ledger
    && (forall q {:trigger q in cell.queue} :: q in cell.queue ==> q in ledger)
    && (forall q {:trigger ledger[q]} :: q in ledger ==> OwnsOf(c, cell, ledger[q].owners, q))
  }

  ghost predicate OwnsOf(c: Connection, cell: Cell, owners: multiset<Owner<Connection>>, q: Payload) {
    owners[Slot(c)] == (if cell.slot == q then 1 else 0) && owners[Queue(c)] == multiset(cell.queue)[q]
  }

  ghost predicate Living(o: Owner<Connection>, conns: set<Connection>) {
    o.Slot? || o.Queue? ==> o.holder in conns
  }

  /** No dead connection owns a payload. */
  ghost predicate NoGhosts(owners: multiset<Owner<Connection>>, conns: set<Connection>) {
    forall o {:trigger Living(o, conns)} :: o in owners ==> Living(o, conns)
  }

  ghost predicate Sound(conns: map<Connection, Cell>, ledger: Ledger<Connection>) {
    && Balanced(ledger)
    && (forall c {:trigger OwnsIts(c, conns[c], ledger)} :: c in conns ==> OwnsIts(c, conns[c], ledger))
    && (forall q {:trigger ledger[q].owners} :: q in ledger ==> NoGhosts(ledger[q].owners, conns.Keys))
  }

  /** How often some connections hold a payload: as connect payloads, and in their queues. */
  function InUse(order: seq<Connection>, conns: map<Connection, Cell>, q: Payload): nat
    requires forall c :: c in order ==> c in conns
  {
    if order == [] then 0 else
    var cell := conns[order[0]];
    (if cell.slot == q then 1 else 0) + multiset(cell.queue)[q] + InUse(order[1..], conns, q)
  }

  lemma {:induction false} SharesOff(owners: multiset<Owner<Connection>>, c: Connection)
    ensures var less := owners[Slot(c) := 0][Queue(c) := 0];
            && |less| == |owners| - owners[Slot(c)] - owners[Queue(c)]
            && less[App] == owners[App] && less[Nobody] == owners[Nobody]
  {
  }

  lemma {:induction false} AddsUp(order: seq<Connection>, conns: map<Connection, Cell>, owners: multiset<Owner<Connection>>, q: Payload)
    requires Chains.Distinct(order) && forall c :: c in order ==> c in conns && OwnsOf(c, conns[c], owners, q)
    requires forall o :: o in owners && (o.Slot? || o.Queue?) ==> o.holder in order
    ensures |owners| == owners[App] + owners[Nobody] + InUse(order, conns, q)
  {
    if order == [] {
      assert owners == multiset{}[App := owners[App]][Nobody := owners[Nobody]];
    } else {
      var c, rest := order[0], order[1..];
      var less := owners[Slot(c) := 0][Queue(c) := 0];
      assert OwnsOf(c, conns[c], owners, q);
      SharesOff(owners, c);
      forall d | d in rest ensures d in conns && OwnsOf(d, conns[d], less, q) {
        assert OwnsOf(d, conns[d], owners, q);
      }
      AddsUp(rest, conns, less, q);
    }
  }

  /** The count of a payload that is not pinned is what the application holds, what failed sends have lost, and
      what the connections hold, added up in any order. */
  lemma {:induction false} CountAddsUp(conns: map<Connection, Cell>, l: Ledger<Connection>, q: Payload, order: seq<Connection>)
    requires Sound(conns, l) && q in l && l[q].count < PINNED
    requires Chains.Distinct(order) && (forall c :: c in order ==> c in conns) && (forall c :: c in conns ==> c in order)
    ensures l[q].count == l[q].owners[App] + l[q].owners[Nobody] + InUse(order, conns, q)
  {
    var owners := l[q].owners;
    forall c | c in order ensures c in conns && OwnsOf(c, conns[c], owners, q) {
      assert OwnsIts(c, conns[c], l);
    }
    assert NoGhosts(owners, conns.Keys);
    forall o | o in owners && (o.Slot? || o.Queue?) ensures o.holder in order {
      assert Living(o, conns.Keys);
    }
    AddsUp(order, conns, owners, q);
  }

  // ------------------------------------------------------------------------------------ tearing down

  /** The loops of `free_client_connection` and `udp_client_connection_destroy`: the connect payload is released,
      then each payload in the queue. */
  ghost function Given(l: Ledger<Connection>, c: Connection, cell: Cell): Ledger<Connection>
    requires cell.slot != null && cell.slot in l
  {
    ReleasedAll(Released(l, cell.slot, Slot(c)), cell.queue, Queue(c))
  }

  /** What the others own when `c` has given up all. */
  ghost function OthersOf(owners: multiset<Owner<Connection>>, c: Connection): multiset<Owner<Connection>> {
    owners[Slot(c) := 0][Queue(c) := 0]
  }

  lemma {:induction false} SlotGone(owners: multiset<Owner<Connection>>, c: Connection)
    requires owners[Slot(c)] == 1
    ensures owners - multiset{Slot(c)} == owners[Slot(c) := 0]
  {
  }

  lemma {:induction false} OwnsRestOfQueue(l: Ledger<Connection>, c: Connection, cell: Cell)
    requires Balanced(l) && OwnsIts(c, cell, l)
    ensures Slot(c) in l[cell.slot].owners
    ensures Balanced(Released(l, cell.slot, Slot(c)))
    ensures Owns(Released(l, cell.slot, Slot(c)), cell.queue, Queue(c))
  {
    var p, l1 := cell.slot, Released(l, cell.slot, Slot(c));
    assert OwnsOf(c, cell, l[p].owners, p);
    ReleasedIsBalanced(l, p, Slot(c));
    forall q | q in cell.queue ensures q in l1 && multiset(cell.queue)[q] <= l1[q].owners[Queue(c)] {
      assert OwnsOf(c, cell, l[q].owners, q);
      assert multiset(cell.queue)[q] > 0;
      assert Queue(c) in l[q].owners && Queue(c) !in multiset{Slot(c)};
    }
  }

  /** First the connect payload... */
  lemma {:induction false} SlotGivenUp(l: Ledger<Connection>, c: Connection, cell: Cell, q: Payload)
    requires Balanced(l) && OwnsIts(c, cell, l) && q in l
    ensures SettledFor(l[q].count == PINNED, l[q].owners[Slot(c) := 0], Released(l, cell.slot, Slot(c)), q)
  {
    var owners := l[q].owners;
    assert OwnsOf(c, cell, owners, q);
    if q == cell.slot {
      ReleasedIsBalanced(l, q, Slot(c));
      SlotGone(owners, c);
      assert owners == multiset{Slot(c)} ==> owners[Slot(c) := 0] == multiset{};
      assert owners[Slot(c) := 0] == multiset{} ==> owners == multiset{Slot(c)} by {
        assert owners == owners[Slot(c) := 0] + multiset{Slot(c)};
      }
    } else {
      assert owners[Slot(c) := 0] == owners;
      assert |owners| > 0 || l[q].count == PINNED;
    }
  }

  /** ...then the queue. */
  lemma {:induction false} QueueGivenUp(l1: Ledger<Connection>, c: Connection, queue: seq<Payload>, q: Payload)
    requires Balanced(l1) && Owns(l1, queue, Queue(c)) && q in l1 && l1[q].owners[Queue(c)] == multiset(queue)[q]
    ensures SettledFor(l1[q].count == PINNED, l1[q].owners[Queue(c) := 0], ReleasedAll(l1, queue, Queue(c)), q)
    ensures ReleasedAll(l1, queue, Queue(c)).Keys <= l1.Keys
  {
    Settled(l1, queue, Queue(c));
  }

  /** A connection that goes gives up what it owns, once; nobody else loses anything; and a payload is freed
      exactly if it is not pinned and nobody is left. */
  lemma {:induction false} GivenUp(l: Ledger<Connection>, c: Connection, cell: Cell, q: Payload)
    requires Balanced(l) && OwnsIts(c, cell, l) && q in l
    ensures SettledFor(l[q].count == PINNED, OthersOf(l[q].owners, c), Given(l, c, cell), q)
  {
    var l1 := Released(l, cell.slot, Slot(c));
    SlotGivenUp(l, c, cell, q);
    OwnsRestOfQueue(l, c, cell);
    if q in l1 {
      assert OwnsOf(c, cell, l[q].owners, q);
      QueueGivenUp(l1, c, cell.queue, q);
    } else {
      Settled(l1, cell.queue, Queue(c));
      assert OthersOf(l[q].owners, c) == multiset{};
    }
  }

  lemma {:induction false} BalancedGiven(l: Ledger<Connection>, c: Connection, cell: Cell)
    requires Balanced(l) && OwnsIts(c, cell, l)
    ensures Balanced(Given(l, c, cell)) && Given(l, c, cell).Keys <= l.Keys
  {
    OwnsRestOfQueue(l, c, cell);
    Settled(Released(l, cell.slot, Slot(c)), cell.queue, Queue(c));
  }

  /** The other connections still own what they owned. */
  lemma {:induction false} OthersOwn(conns: map<Connection, Cell>, l: Ledger<Connection>, c: Connection, d: Connection)
    requires Sound(conns, l) && c in conns && d in conns && d != c
    ensures OwnsIts(c, conns[c], l) && OwnsIts(d, conns[d], Given(l, c, conns[c]))
  {
    var cell := conns[d];
    assert OwnsIts(c, conns[c], l) && OwnsIts(d, cell, l);
    var after := Given(l, c, conns[c]);
    BalancedGiven(l, c, conns[c]);
    forall q | q in l && (q == cell.slot || q in cell.queue) ensures q in after {
      GivenUp(l, c, conns[c], q);
      assert OwnsOf(d, cell, l[q].owners, q);
      var left := OthersOf(l[q].owners, c);
      assert q in cell.queue ==> multiset(cell.queue)[q] > 0;
      assert q == cell.slot ==> Slot(d) in left;
      assert q in cell.queue ==> Queue(d) in left;
    }
    forall q | q in after ensures OwnsOf(d, cell, after[q].owners, q) {
      GivenUp(l, c, conns[c], q);
      assert OwnsOf(d, cell, l[q].owners, q);
    }
  }

  lemma {:induction false} TornSound(conns: map<Connection, Cell>, l: Ledger<Connection>, c: Connection)
    requires Sound(conns, l) && c in conns
    ensures OwnsIts(c, conns[c], l) && Sound(conns - {c}, Given(l, c, conns[c]))
  {
    assert OwnsIts(c, conns[c], l);
    var after := Given(l, c, conns[c]);
    BalancedGiven(l, c, conns[c]);
    forall d | d in conns - {c} ensures OwnsIts(d, (conns - {c})[d], after) {
      OthersOwn(conns, l, c, d);
    }
    forall q | q in after ensures NoGhosts(after[q].owners, (conns - {c}).Keys) {
      GivenUp(l, c, conns[c], q);
      assert NoGhosts(l[q].owners, conns.Keys);
      forall o | o in after[q].owners ensures Living(o, (conns - {c}).Keys) {
        assert Living(o, conns.Keys);
        assert o in l[q].owners;
      }
    }
  }

  // ------------------------------------------------------------------------------------ other changes

  /** Nothing that connections own changes hands, though payloads that no connection owns may go. */
  lemma {:induction false} SameHoldings(conns: map<Connection, Cell>, l: Ledger<Connection>, l': Ledger<Connection>)
    requires Sound(conns, l) && Balanced(l') && l'.Keys <= l.Keys
    requires forall q :: q in l' ==> Alike(l[q].owners, l'[q].owners)
    requires forall q :: q in l && q !in l' ==> Alike(l[q].owners, multiset{})
    ensures Sound(conns, l')
  {
    forall c | c in conns ensures OwnsIts(c, conns[c], l') {
      assert OwnsIts(c, conns[c], l);
      forall q | q in l && (q == conns[c].slot || q in conns[c].queue) ensures q in l' {
        assert OwnsOf(c, conns[c], l[q].owners, q);
        assert q in conns[c].queue ==> multiset(conns[c].queue)[q] > 0;
        if q !in l' {
          AlikeAt(l[q].owners, multiset{}, Slot(c));
          AlikeAt(l[q].owners, multiset{}, Queue(c));
        }
      }
      forall q | q in l' ensures OwnsOf(c, conns[c], l'[q].owners, q) {
        assert q in l.Keys && Alike(l[q].owners, l'[q].owners);
        assert OwnsOf(c, conns[c], l[q].owners, q);
        AlikeAt(l[q].owners, l'[q].owners, Slot(c));
        AlikeAt(l[q].owners, l'[q].owners, Queue(c));
      }
    }
    forall q | q in l' ensures NoGhosts(l'[q].owners, conns.Keys) {
      assert q in l.Keys && Alike(l[q].owners, l'[q].owners);
      assert NoGhosts(l[q].owners, conns.Keys);
      forall o | o in l'[q].owners ensures Living(o, conns.Keys) {
        AlikeAt(l[q].owners, l'[q].owners, o);
        assert Living(o, conns.Keys);
      }
    }
  }

  /** The same owners, but for the application and nobody. */
  ghost predicate Alike(a: multiset<Owner<Connection>>, b: multiset<Owner<Connection>>) {
    a[App := 0][Nobody := 0] == b[App := 0][Nobody := 0]
  }

  lemma {:induction false} AlikeAt(a: multiset<Owner<Connection>>, b: multiset<Owner<Connection>>, o: Owner<Connection>)
    requires Alike(a, b)
    ensures o.Slot? || o.Queue? ==> a[o] == b[o]
  {
    var a', b' := a[App := 0][Nobody := 0], b[App := 0][Nobody := 0];
    assert o != App && o != Nobody ==> a'[o] == a[o] && b'[o] == b[o];
  }

  // ------------------------------------------------------------------------------------ polling one connection

  /** What the handler of a connection makes of it. */
  function Judged(cell: Cell, now: nat, luck: Luck): Outcome {
    React(cell.timer, now, luck.(room := Appends(cell.queue, luck.room)))
  }

  /** A reference is taken for the packet on its way. It goes with the packet; when the send fails, nobody
      gives it back. */
  ghost function Sent(l: Ledger<Connection>, p: Payload, sent: bool): Ledger<Connection>
    requires p in l
  {
    var l1 := Held(l, p, Nobody);
    if sent then Released(l1, p, Nobody) else l1
  }

  /** What a handler does: `q` is the payload it allocates for an idle packet. */
  ghost function Handled(n: Net, c: Connection, now: nat, luck: Luck, q: Payload?): Net
    requires c in n.conns && n.conns[c].slot != null && n.conns[c].slot in n.ledger
    requires Judged(n.conns[c], now, luck).action == Idle ==> q != null
  {
    var cell := n.conns[c];
    var o := Judged(cell, now, luck);
    match o.action
    case Nothing => n.(conns := n.conns[c := cell.(timer := o.timer)])
    case Send => n.(conns := n.conns[c := cell.(timer := o.timer)], ledger := Sent(n.ledger, cell.slot, luck.sent))
    case Idle =>
      if Appends(cell.queue, luck.room) then
        n.(conns := n.conns[c := cell.(timer := o.timer, queue := cell.queue + [q])],
           ledger := Passed(Issued(n.ledger, q), q, App, Queue(c)))
      else
        n.(conns := n.conns[c := cell.(timer := o.timer)],
           ledger := Released(Issued(n.ledger, q), q, App), log := n.log + [ErrorNoted])
  }

  /** `udp_client_connection_destroy`. */
  ghost function Destroyed(n: Net, c: Connection): Net
    requires c in n.conns && n.conns[c].slot != null && n.conns[c].slot in n.ledger
  {
    Net(n.conns - {c}, Given(n.ledger, c, n.conns[c]), n.log + Farewell(n.conns[c].timer, c))
  }

  function Farewell(t: Timer, c: Connection): seq<Note> {
    if t.phase == Preconnect || t.phase == Initial then [] else [Disconnected(c)]
  }

  lemma {:induction false} OneMoreNobody(a: multiset<Owner<Connection>>)
    ensures Alike(a, a + multiset{Nobody}) && (a + multiset{Nobody})[App] == a[App]
    ensures a + multiset{Nobody} - multiset{Nobody} == a
  {
  }

  lemma {:induction false} SentOwners(l: Ledger<Connection>, p: Payload, sent: bool, q: Payload)
    requires Balanced(l) && p in l && q in l
    ensures q in Sent(l, p, sent)
    ensures Alike(l[q].owners, Sent(l, p, sent)[q].owners) && Sent(l, p, sent)[q].owners[App] == l[q].owners[App]
  {
    OneMoreNobody(l[q].owners);
  }

  lemma {:induction false} SentBalanced(l: Ledger<Connection>, p: Payload, sent: bool)
    requires Balanced(l) && p in l
    ensures Balanced(Sent(l, p, sent)) && Sent(l, p, sent).Keys == l.Keys
  {
    EntryKeeps(l, Entry.Hold(p, Nobody));
    if sent {
      assert Nobody in Held(l, p, Nobody)[p].owners;
      ReleasedIsBalanced(Held(l, p, Nobody), p, Nobody);
    }
  }

  /** Sending takes nothing from connections or the application. */
  lemma {:induction false} SentSound(conns: map<Connection, Cell>, l: Ledger<Connection>, p: Payload, sent: bool)
    requires Sound(conns, l) && p in l
    ensures Sound(conns, Sent(l, p, sent))
  {
    SentBalanced(l, p, sent);
    forall q | q in l ensures Alike(l[q].owners, Sent(l, p, sent)[q].owners) {
      SentOwners(l, p, sent, q);
    }
    SameHoldings(conns, l, Sent(l, p, sent));
  }

  lemma {:induction false} QueuedLedger(l: Ledger<Connection>, c: Connection, q: Payload)
    ensures Passed(Issued(l, q), q, App, Queue(c)) == l[q := Account(1, multiset{Queue(c)})]
  {
    assert multiset{App} - multiset{App} + multiset{Queue(c)} == multiset{Queue(c)};
  }

  lemma {:induction false} QueuedOwns(d: Connection, cell: Cell, l: Ledger<Connection>, c: Connection, q: Payload)
    requires OwnsIts(d, cell, l) && q !in l
    ensures var queue := if d == c then cell.queue + [q] else cell.queue;
            OwnsIts(d, cell.(queue := queue), l[q := Account(1, multiset{Queue(c)})])
  {
    var l' := l[q := Account(1, multiset{Queue(c)})];
    var cell' := cell.(queue := if d == c then cell.queue + [q] else cell.queue);
    assert q !in cell.queue && q != cell.slot;
    forall r | r in l' ensures OwnsOf(d, cell', l'[r].owners, r) {
      assert r != q ==> OwnsOf(d, cell, l[r].owners, r);
    }
  }

  lemma {:induction false} OneMoreSound(conns: map<Connection, Cell>, l: Ledger<Connection>, c: Connection, q: Payload)
    requires Sound(conns, l) && c in conns && q !in l
    ensures Sound(conns[c := conns[c].(queue := conns[c].queue + [q])], l[q := Account(1, multiset{Queue(c)})])
  {
    var l', conns' := l[q := Account(1, multiset{Queue(c)})], conns[c := conns[c].(queue := conns[c].queue + [q])];
    assert conns'.Keys == conns.Keys;
    forall d | d in conns' ensures OwnsIts(d, conns'[d], l') {
      assert OwnsIts(d, conns[d], l);
      QueuedOwns(d, conns[d], l, c, q);
    }
    forall r | r in l' ensures NoGhosts(l'[r].owners, conns'.Keys) {
      assert r != q ==> NoGhosts(l[r].owners, conns.Keys);
    }
  }

  lemma {:induction false} QueuedSound(conns: map<Connection, Cell>, l: Ledger<Connection>, c: Connection, q: Payload)
    requires Sound(conns, l) && c in conns && q !in l
    ensures Sound(conns[c := conns[c].(queue := conns[c].queue + [q])], Passed(Issued(l, q), q, App, Queue(c)))
  {
    QueuedLedger(l, c, q);
    OneMoreSound(conns, l, c, q);
  }

  lemma {:induction false} SameOwned(c: Connection, a: Cell, b: Cell, l: Ledger<Connection>)
    requires OwnsIts(c, a, l) && a.slot == b.slot && a.queue == b.queue
    ensures OwnsIts(c, b, l)
  {
    forall r | r in l ensures OwnsOf(c, b, l[r].owners, r) {
      assert OwnsOf(c, a, l[r].owners, r);
    }
  }

  lemma {:induction false} SameTimers(conns: map<Connection, Cell>, l: Ledger<Connection>, c: Connection, cell: Cell)
    requires Sound(conns, l) && c in conns && cell.slot == conns[c].slot && cell.queue == conns[c].queue
    ensures Sound(conns[c := cell], l)
  {
    var conns' := conns[c := cell];
    assert conns'.Keys == conns.Keys;
    forall d | d in conns' ensures OwnsIts(d, conns'[d], l) {
      assert OwnsIts(d, conns[d], l);
      SameOwned(d, conns[d], conns'[d], l);
    }
    forall r | r in l ensures NoGhosts(l[r].owners, conns'.Keys) {
      assert NoGhosts(l[r].owners, conns.Keys);
    }
  }

  lemma {:induction false} HandledSound(n: Net, c: Connection, now: nat, luck: Luck, q: Payload?)
    requires Sound(n.conns, n.ledger) && c in n.conns
    requires Judged(n.conns[c], now, luck).action == Idle ==> q != null && q !in n.ledger
    ensures OwnsIts(c, n.conns[c], n.ledger)
    ensures Sound(Handled(n, c, now, luck, q).conns, Handled(n, c, now, luck, q).ledger)
  {
    var cell, o := n.conns[c], Judged(n.conns[c], now, luck);
    var timed := n.conns[c := cell.(timer := o.timer)];
    assert OwnsIts(c, cell, n.ledger);
    SameTimers(n.conns, n.ledger, c, cell.(timer := o.timer));
    match o.action
    case Nothing =>
    case Send => SentSound(timed, n.ledger, cell.slot, luck.sent);
    case Idle =>
      if Appends(cell.queue, luck.room) {
        QueuedSound(timed, n.ledger, c, q);
        var queue := cell.queue + [q];
        assert timed[c := timed[c].(queue := queue)] == n.conns[c := cell.(timer := o.timer, queue := queue)];
      } else {
        assert Released(Issued(n.ledger, q), q, App) == n.ledger;
      }
  }

  /** There is such a connection, and a payload is there for an idle packet. */
  ghost predicate CanTurn(n: Net, c: Connection, now: nat, luck: Luck, q: Payload?) {
    && Sound(n.conns, n.ledger) && c in n.conns
    && (Judged(n.conns[c], now, luck).action == Idle ==> q != null && q !in n.ledger)
  }

  /** One turn of the loop of `udp_client_poll`: a connection whose handler says -1 is destroyed. */
  ghost function Turned(n: Net, c: Connection, now: nat, luck: Luck, q: Payload?): Net
    requires Sound(n.conns, n.ledger) && c in n.conns
    requires Judged(n.conns[c], now, luck).action == Idle ==> q != null && q !in n.ledger
  {
    HandledSound(n, c, now, luck, q);
    var h := Handled(n, c, now, luck, q);
    if Judged(n.conns[c], now, luck).verdict == -1 then Destroyed(h, c) else h
  }

  /** What the application is told of it. */
  function Told(cell: Cell, c: Connection, now: nat, luck: Luck): seq<Note> {
    var o := Judged(cell, now, luck);
    (if o.action == Idle && !Appends(cell.queue, luck.room) then [ErrorNoted] else [])
    + (if o.verdict == -1 then Farewell(o.timer, c) else [])
  }

  /** What a handler makes of a connection: its timer, and one idle packet more or none. */
  ghost predicate Follows(cell: Cell, after: Cell, now: nat, luck: Luck) {
    var o := Judged(cell, now, luck);
    && after.timer == o.timer && after.slot == cell.slot
    && cell.queue <= after.queue
    && |after.queue| == |cell.queue| + if o.action == Idle && Appends(cell.queue, luck.room) then 1 else 0
  }

  lemma {:induction false} HandledFrame(n: Net, c: Connection, now: nat, luck: Luck, q: Payload?)
    requires c in n.conns && n.conns[c].slot != null && n.conns[c].slot in n.ledger
    requires Judged(n.conns[c], now, luck).action == Idle ==> q != null
    ensures var h, o := Handled(n, c, now, luck, q), Judged(n.conns[c], now, luck);
            && c in h.conns && h.conns - {c} == n.conns - {c}
            && Follows(n.conns[c], h.conns[c], now, luck)
            && h.log == n.log + if o.action == Idle && !Appends(n.conns[c].queue, luck.room) then [ErrorNoted] else []
  {
  }

  lemma {:induction false} TurnSound(n: Net, c: Connection, now: nat, luck: Luck, q: Payload?)
    requires Sound(n.conns, n.ledger) && c in n.conns
    requires Judged(n.conns[c], now, luck).action == Idle ==> q != null && q !in n.ledger
    ensures Sound(Turned(n, c, now, luck, q).conns, Turned(n, c, now, luck, q).ledger)
  {
    HandledSound(n, c, now, luck, q);
    if Judged(n.conns[c], now, luck).verdict == -1 {
      TornSound(Handled(n, c, now, luck, q).conns, Handled(n, c, now, luck, q).ledger, c);
    }
  }

  lemma {:induction false} DestroyedFrame(h: Net, c: Connection)
    requires c in h.conns && h.conns[c].slot != null && h.conns[c].slot in h.ledger
    ensures var n1 := Destroyed(h, c);
            c !in n1.conns && n1.conns - {c} == h.conns - {c} && n1.log == h.log + Farewell(h.conns[c].timer, c)
  {
  }

  lemma {:induction false} Appended(a: seq<Note>, b: seq<Note>, c: seq<Note>)
    ensures (a + b) + c == a + (b + c) && b + [] == b
  {
  }

  /** A turn touches no other connection, and destroys this one exactly if its handler says -1. */
  lemma {:induction false} TurnFrame(n: Net, c: Connection, now: nat, luck: Luck, q: Payload?)
    requires Sound(n.conns, n.ledger) && c in n.conns
    requires Judged(n.conns[c], now, luck).action == Idle ==> q != null && q !in n.ledger
    ensures var n1 := Turned(n, c, now, luck, q);
            && n1.conns - {c} == n.conns - {c}
            && (c in n1.conns <==> Judged(n.conns[c], now, luck).verdict != -1)
            && (c in n1.conns ==> Follows(n.conns[c], n1.conns[c], now, luck))
            && n1.log == n.log + Told(n.conns[c], c, now, luck)
  {
    HandledSound(n, c, now, luck, q);
    HandledFrame(n, c, now, luck, q);
    var h, o := Handled(n, c, now, luck, q), Judged(n.conns[c], now, luck);
    var errors := if o.action == Idle && !Appends(n.conns[c].queue, luck.room) then [ErrorNoted] else [];
    Appended(n.log, errors, Farewell(o.timer, c));
    if o.verdict == -1 {
      assert OwnsIts(c, h.conns[c], h.ledger);
      DestroyedFrame(h, c);
    }
  }

  /** Microseconds from one timestamp to another, in 64 bits. */
  function Elapsed(now: nat, before: nat): nat {
    (now - before) % 0x1_0000_0000_0000_0000
  }

  /** An idle packet is due, and finds no place in the queue. */
  predicate Unqueued(cell: Cell, now: nat, luck: Luck) {
    && cell.timer.phase == Connected
    && Elapsed(now, cell.timer.lastReceive) <= 5000000 && Elapsed(now, cell.timer.lastTransmit) > 600000
    && !(luck.room && |cell.queue| < 0x100000)
  }

  /** When a turn is the end of the connection: a transmission is due and fails, or it would be the eleventh; the
      peer has been silent for too long, or an idle packet cannot be queued; it is dead; or a handler that runs
      off its end leaves -1 behind. */
  predicate Ending(cell: Cell, now: nat, luck: Luck) {
    var t := cell.timer;
    match t.phase
    case Preconnect | Initial =>
      if Elapsed(now, t.lastTransmit) > 100000 + 20000 * t.ntransmit
      then t.ntransmit >= 10 || !luck.sent || luck.stray == -1
      else luck.stray == -1
    case Connected => Elapsed(now, t.lastReceive) > 5000000 || Unqueued(cell, now, luck) || luck.stray == -1
    case Final => luck.stray == -1
    case Dead => true
  }

  lemma {:induction false} JudgedEnds(cell: Cell, now: nat, luck: Luck)
    ensures Judged(cell, now, luck).verdict == -1 <==> Ending(cell, now, luck)
    ensures Judged(cell, now, luck).action == Idle && !Appends(cell.queue, luck.room) <==> Unqueued(cell, now, luck)
    ensures Judged(cell, now, luck).action == Send && !luck.sent ==> Ending(cell, now, luck)
    ensures var t := Judged(cell, now, luck).timer;
            (t.phase == Preconnect || t.phase == Initial) <==> (cell.timer.phase == Preconnect || cell.timer.phase == Initial)
  {
    var t := cell.timer;
    assert Elapsed(now, t.lastTransmit) == Since(now, t.lastTransmit);
    assert Elapsed(now, t.lastReceive) == Since(now, t.lastReceive);
  }

  /** Exactly these turns end the connection, so does one whose send fails; an error is reported exactly for an
      idle packet that cannot be queued; and after it the application is told of the end exactly of a connection
      that got past connecting. */
  lemma {:induction false} TurnEnds(n: Net, c: Connection, now: nat, luck: Luck, q: Payload?)
    requires CanTurn(n, c, now, luck, q)
    ensures c !in Turned(n, c, now, luck, q).conns <==> Ending(n.conns[c], now, luck)
    ensures Judged(n.conns[c], now, luck).action == Send && !luck.sent ==> c !in Turned(n, c, now, luck, q).conns
    ensures var cell := n.conns[c];
            Turned(n, c, now, luck, q).log ==
            n.log + (if Unqueued(cell, now, luck) then [ErrorNoted] else [])
            + (if Ending(cell, now, luck) && cell.timer.phase != Preconnect && cell.timer.phase != Initial
               then [Disconnected(c)] else [])
  {
    TurnFrame(n, c, now, luck, q);
    JudgedEnds(n.conns[c], now, luck);
    Appended(n.log, if Unqueued(n.conns[c], now, luck) then [ErrorNoted] else [],
             if Ending(n.conns[c], now, luck) then Farewell(n.conns[c].timer, c) else []);
  }

  // ------------------------------------------------------------------------------------ what the application holds

  function AppHolds(l: Ledger<Connection>, p: Payload): nat {
    if p in l then l[p].owners[App] else 0
  }

  /** The application holds what it held: of each payload as many references, and of no other any. */
  ghost predicate AppKept(l: Ledger<Connection>, l': Ledger<Connection>) {
    forall p {:trigger AppHolds(l, p)} {:trigger AppHolds(l', p)} :: p in l.Keys + l'.Keys ==> AppHolds(l', p) == AppHolds(l, p)
  }

  lemma {:induction false} AppKeptTwice(l: Ledger<Connection>, l1: Ledger<Connection>, l2: Ledger<Connection>)
    requires AppKept(l, l1) && AppKept(l1, l2)
    ensures AppKept(l, l2)
  {
    forall p | p in l.Keys + l2.Keys ensures AppHolds(l2, p) == AppHolds(l, p) {
      assert p in l.Keys + l1.Keys ==> AppHolds(l1, p) == AppHolds(l, p);
      assert p in l1.Keys + l2.Keys ==> AppHolds(l2, p) == AppHolds(l1, p);
    }
  }

  /** So what it held a reference to is still there, and its to release. */
  lemma {:induction false} StillHeld(l: Ledger<Connection>, l': Ledger<Connection>, p: Payload)
    requires AppKept(l, l') && p in l && App in l[p].owners
    ensures p in l' && l'[p].owners[App] == l[p].owners[App] && App in l'[p].owners
  {
    assert p in l.Keys + l'.Keys;
    assert AppHolds(l', p) == AppHolds(l, p) > 0;
  }

  /** A connection that goes takes nothing from the application... */
  lemma {:induction false} GivenKeepsApp(l: Ledger<Connection>, c: Connection, cell: Cell)
    requires Balanced(l) && OwnsIts(c, cell, l)
    ensures AppKept(l, Given(l, c, cell))
  {
    var after := Given(l, c, cell);
    BalancedGiven(l, c, cell);
    forall p | p in l.Keys + after.Keys ensures AppHolds(after, p) == AppHolds(l, p) {
      GivenUp(l, c, cell, p);
      assert OthersOf(l[p].owners, c)[App] == l[p].owners[App];
    }
  }

  /** ...nor does a handler... */
  lemma {:induction false} HandledKeepsApp(n: Net, c: Connection, now: nat, luck: Luck, q: Payload?)
    requires Sound(n.conns, n.ledger) && c in n.conns && n.conns[c].slot != null && n.conns[c].slot in n.ledger
    requires Judged(n.conns[c], now, luck).action == Idle ==> q != null && q !in n.ledger
    ensures AppKept(n.ledger, Handled(n, c, now, luck, q).ledger)
  {
    var l, l' := n.ledger, Handled(n, c, now, luck, q).ledger;
    match Judged(n.conns[c], now, luck).action
    case Nothing =>
    case Send =>
      SentBalanced(l, n.conns[c].slot, luck.sent);
      forall p | p in l.Keys + l'.Keys ensures AppHolds(l', p) == AppHolds(l, p) {
        SentOwners(l, n.conns[c].slot, luck.sent, p);
      }
    case Idle =>
      QueuedLedger(l, c, q);
      assert Released(Issued(l, q), q, App) == l;
  }

  /** ...nor a turn of the poll. */
  lemma {:induction false} TurnKeepsApp(n: Net, c: Connection, now: nat, luck: Luck, q: Payload?)
    requires Sound(n.conns, n.ledger) && c in n.conns
    requires Judged(n.conns[c], now, luck).action == Idle ==> q != null && q !in n.ledger
    ensures AppKept(n.ledger, Turned(n, c, now, luck, q).ledger)
  {
    HandledSound(n, c, now, luck, q);
    HandledKeepsApp(n, c, now, luck, q);
    if Judged(n.conns[c], now, luck).verdict == -1 {
      var h := Handled(n, c, now, luck, q);
      assert OwnsIts(c, h.conns[c], h.ledger);
      GivenKeepsApp(h.ledger, c, h.conns[c]);
      AppKeptTwice(n.ledger, h.ledger, Given(h.ledger, c, h.conns[c]));
    }
  }

  // ------------------------------------------------------------------------------------ what failed sends lose

  /** References that nobody will give back. */
  function Lost(l: Ledger<Connection>, p: Payload): nat {
    if p in l then l[p].owners[Nobody] else 0
  }

  predicate Pinned(l: Ledger<Connection>, p: Payload) {
    p in l && l[p].count == PINNED
  }

  /** The handler sends the connect payload `p`. */
  predicate Sends(cell: Cell, now: nat, luck: Luck, p: Payload) {
    Judged(cell, now, luck).action == Send && cell.slot == p
  }

  function FailedSend(cell: Cell, now: nat, luck: Luck, p: Payload): nat {
    if Sends(cell, now, luck, p) && !luck.sent then 1 else 0
  }

  /** The end of a connection loses nothing and pins nothing... */
  lemma {:induction false} GivenLoses(l: Ledger<Connection>, c: Connection, cell: Cell, p: Payload)
    requires Balanced(l) && OwnsIts(c, cell, l)
    ensures Lost(Given(l, c, cell), p) == Lost(l, p)
    ensures Pinned(Given(l, c, cell), p) <==> Pinned(l, p)
  {
    BalancedGiven(l, c, cell);
    if p in l {
      GivenUp(l, c, cell, p);
      var left := OthersOf(l[p].owners, c);
      assert left[Nobody] == l[p].owners[Nobody];
      FewerOwners(l[p].owners, c);
    }
  }

  lemma {:induction false} FewerOwners(owners: multiset<Owner<Connection>>, c: Connection)
    ensures |OthersOf(owners, c)| <= |owners|
  {
    assert owners == OthersOf(owners, c) + multiset{}[Slot(c) := owners[Slot(c)]][Queue(c) := owners[Queue(c)]];
  }

  /** A send leaves the account of its payload with one owner more if it fails. */
  lemma {:induction false} SentAccount(l: Ledger<Connection>, slot: Payload, sent: bool)
    requires Balanced(l) && slot in l
    ensures Sent(l, slot, sent).Keys == l.Keys && Sent(l, slot, sent) - {slot} == l - {slot}
    ensures Sent(l, slot, sent)[slot].owners == l[slot].owners + if sent then multiset{} else multiset{Nobody}
    ensures Pinned(Sent(l, slot, sent), slot) <==> l[slot].count + 1 >= PINNED
  {
    SentBalanced(l, slot, sent);
    OneMoreNobody(l[slot].owners);
  }

  lemma {:induction false} OthersAlone(l: Ledger<Connection>, l': Ledger<Connection>, slot: Payload, p: Payload)
    requires l'.Keys == l.Keys && l' - {slot} == l - {slot} && p != slot
    ensures p in l' <==> p in l
    ensures p in l ==> l'[p] == l[p]
  {
    assert p in l ==> p in l - {slot} && (l - {slot})[p] == l[p];
    assert p in l' ==> p in l' - {slot} && (l' - {slot})[p] == l'[p];
  }

  /** ...a send loses one reference if it fails, and pins a payload that was one short of it. */
  lemma {:induction false} SentLoses(l: Ledger<Connection>, slot: Payload, sent: bool, p: Payload)
    requires Balanced(l) && slot in l
    ensures Lost(Sent(l, slot, sent), p) == Lost(l, p) + if p == slot && !sent then 1 else 0
    ensures Pinned(Sent(l, slot, sent), p) <==> Pinned(l, p) || (p == slot && l[p].count + 1 == PINNED)
  {
    SentAccount(l, slot, sent);
    if p != slot {
      OthersAlone(l, Sent(l, slot, sent), slot, p);
    }
  }

  lemma {:induction false} HandledLoses(n: Net, c: Connection, now: nat, luck: Luck, q: Payload?, p: Payload)
    requires Sound(n.conns, n.ledger) && c in n.conns && n.conns[c].slot != null && n.conns[c].slot in n.ledger
    requires Judged(n.conns[c], now, luck).action == Idle ==> q != null && q !in n.ledger
    ensures var l := Handled(n, c, now, luck, q).ledger;
            && Lost(l, p) == Lost(n.ledger, p) + FailedSend(n.conns[c], now, luck, p)
            && (Pinned(l, p) <==>
                  Pinned(n.ledger, p) || (Sends(n.conns[c], now, luck, p) && n.ledger[p].count + 1 == PINNED))
  {
    match Judged(n.conns[c], now, luck).action
    case Nothing =>
    case Send => SentLoses(n.ledger, n.conns[c].slot, luck.sent, p);
    case Idle =>
      QueuedLedger(n.ledger, c, q);
      assert Released(Issued(n.ledger, q), q, App) == n.ledger;
  }

  /** ...so a turn of the poll loses one reference exactly if its handler sends in vain. */
  lemma {:induction false} TurnLoses(n: Net, c: Connection, now: nat, luck: Luck, q: Payload?, p: Payload)
    requires CanTurn(n, c, now, luck, q)
    ensures n.conns[c].slot != null && n.conns[c].slot in n.ledger
    ensures var l := Turned(n, c, now, luck, q).ledger;
            && Lost(l, p) == Lost(n.ledger, p) + FailedSend(n.conns[c], now, luck, p)
            && (Pinned(l, p) <==>
                  Pinned(n.ledger, p) || (Sends(n.conns[c], now, luck, p) && n.ledger[p].count + 1 == PINNED))
  {
    HandledSound(n, c, now, luck, q);
    HandledLoses(n, c, now, luck, q, p);
    if Judged(n.conns[c], now, luck).verdict == -1 {
      var h := Handled(n, c, now, luck, q);
      assert OwnsIts(c, h.conns[c], h.ledger);
      GivenLoses(h.ledger, c, h.conns[c], p);
    }
  }

  /** Whatever else owns it: when a connection is destroyed after a send, its connect payload, like any other
      payload that is not pinned, lives on exactly if somebody else owns it or the send failed; a failed send
      adds one reference that stays, and nothing else does. */
  lemma {:induction false} LostByFailedSend(conns: map<Connection, Cell>, l: Ledger<Connection>, c: Connection,
                                             sent: bool, p: Payload)
    requires Sound(conns, l) && c in conns && p in l
    ensures OwnsIts(c, conns[c], l) && OwnsIts(c, conns[c], Sent(l, conns[c].slot, sent))
    ensures var l1 := Sent(l, conns[c].slot, sent);
            var after, failed := Given(l1, c, conns[c]), p == conns[c].slot && !sent;
            && (p in after <==> Pinned(l1, p) || OthersOf(l[p].owners, c) != multiset{} || failed)
            && (p in after ==>
                  after[p].owners == OthersOf(l[p].owners, c) + if failed then multiset{Nobody} else multiset{})
            && Lost(after, p) == Lost(l, p) + if failed then 1 else 0
  {
    var slot := conns[c].slot;
    assert OwnsIts(c, conns[c], l);
    var l1 := Sent(l, slot, sent);
    SentSound(conns, l, slot, sent);
    SentBalanced(l, slot, sent);
    assert OwnsIts(c, conns[c], l1);
    GivenUp(l1, c, conns[c], p);
    SentLoses(l, slot, sent, p);
    GivenLoses(l1, c, conns[c], p);
    SentAccount(l, slot, sent);
    if p == slot {
      OneMoreLeft(l[p].owners, c, sent);
    } else {
      OthersAlone(l, l1, slot, p);
    }
  }

  lemma {:induction false} OneMoreLeft(owners: multiset<Owner<Connection>>, c: Connection, sent: bool)
    ensures var more := if sent then multiset{} else multiset{Nobody};
            && OthersOf(owners + more, c) == OthersOf(owners, c) + more
            && (OthersOf(owners + more, c) != multiset{} <==> OthersOf(owners, c) != multiset{} || !sent)
  {
    if !sent {
      assert Nobody in OthersOf(owners + multiset{Nobody}, c);
    }
  }

  /** What a connection, the application and failed sends own settles who owns what: two ledgers that agree on
      these agree on every payload that anybody owns. */
  lemma {:induction false} OwnersSettled(conns: map<Connection, Cell>, l: Ledger<Connection>, l': Ledger<Connection>, p: Payload)
    requires Sound(conns, l) && Sound(conns, l') && p in l && l[p].owners != multiset{}
    requires AppHolds(l, p) == AppHolds(l', p) && Lost(l, p) == Lost(l', p)
    ensures p in l' && l'[p].owners == l[p].owners
  {
    var o :| o in l[p].owners;
    assert NoGhosts(l[p].owners, conns.Keys) && Living(o, conns.Keys);
    if o.Slot? || o.Queue? {
      var c := o.holder;
      assert OwnsIts(c, conns[c], l) && OwnsIts(c, conns[c], l');
      assert OwnsOf(c, conns[c], l[p].owners, p);
      assert o.Queue? ==> p in conns[c].queue;
    }
    assert p in l';
    forall o ensures l'[p].owners[o] == l[p].owners[o] {
      SameShare(conns, l, l', p, o);
    }
  }

  lemma {:induction false} SameShare(conns: map<Connection, Cell>, l: Ledger<Connection>, l': Ledger<Connection>, p: Payload,
                                     o: Owner<Connection>)
    requires Sound(conns, l) && Sound(conns, l') && p in l && p in l'
    requires AppHolds(l, p) == AppHolds(l', p) && Lost(l, p) == Lost(l', p)
    ensures l'[p].owners[o] == l[p].owners[o]
  {
    if o.Slot? || o.Queue? {
      var c := o.holder;
      if c in conns {
        assert OwnsIts(c, conns[c], l) && OwnsIts(c, conns[c], l');
        assert OwnsOf(c, conns[c], l[p].owners, p) && OwnsOf(c, conns[c], l'[p].owners, p);
      } else {
        assert NoGhosts(l[p].owners, conns.Keys) && NoGhosts(l'[p].owners, conns.Keys);
        assert !Living(o, conns.Keys);
      }
    }
  }

  ghost predicate NoConnection(owners: multiset<Owner<Connection>>) {
    forall o :: o in owners ==> o.App? || o.Nobody?
  }

  /** With no connection left, every payload left belongs to the application, or was lost by a failed send;
      and unless it is pinned, its count is made up of just these. */
  lemma {:induction false} NothingHeld(l: Ledger<Connection>, q: Payload)
    requires Sound(map[], l) && q in l
    ensures NoConnection(l[q].owners)
    ensures l[q].count < PINNED ==> l[q].count == l[q].owners[App] + l[q].owners[Nobody]
  {
    var none: map<Connection, Cell> := map[];
    assert NoGhosts(l[q].owners, none.Keys);
    forall o | o in l[q].owners ensures o.App? || o.Nobody? {
      assert Living(o, none.Keys);
    }
    if l[q].count < PINNED {
      CountAddsUp(none, l, q, []);
    }
  }

  // ------------------------------------------------------------------------------------ when all connections go

  /** Connections have given up what they owned, and nothing else has happened to the payloads. */
  ghost predicate OnlyGiven(l: Ledger<Connection>, l': Ledger<Connection>) {
    && l'.Keys <= l.Keys
    && forall p {:trigger AppHolds(l, p)} {:trigger AppHolds(l', p)} :: p in l.Keys ==>
         AppHolds(l', p) == AppHolds(l, p) && Lost(l', p) == Lost(l, p) && Pinned(l', p) == Pinned(l, p)
  }

  lemma {:induction false} GivenOnly(l: Ledger<Connection>, c: Connection, cell: Cell)
    requires Balanced(l) && OwnsIts(c, cell, l)
    ensures OnlyGiven(l, Given(l, c, cell))
  {
    BalancedGiven(l, c, cell);
    GivenKeepsApp(l, c, cell);
    forall p | p in l.Keys
      ensures var l' := Given(l, c, cell);
              AppHolds(l', p) == AppHolds(l, p) && Lost(l', p) == Lost(l, p) && Pinned(l', p) == Pinned(l, p)
    {
      GivenLoses(l, c, cell, p);
      assert p in l.Keys + Given(l, c, cell).Keys;
    }
  }

  lemma {:induction false} OnlyGivenTwice(l: Ledger<Connection>, l1: Ledger<Connection>, l2: Ledger<Connection>)
    requires OnlyGiven(l, l1) && OnlyGiven(l1, l2)
    ensures OnlyGiven(l, l2)
  {
    forall p | p in l.Keys
      ensures AppHolds(l2, p) == AppHolds(l, p) && Lost(l2, p) == Lost(l, p) && Pinned(l2, p) == Pinned(l, p)
    {
      assert AppHolds(l1, p) == AppHolds(l, p);
      assert p in l1.Keys ==> AppHolds(l2, p) == AppHolds(l1, p);
      assert p !in l1.Keys ==> p !in l2.Keys;
    }
  }

  /** The owners of a payload that are not connections. */
  ghost function Unconnected(owners: multiset<Owner<Connection>>): multiset<Owner<Connection>> {
    multiset{}[App := owners[App]][Nobody := owners[Nobody]]
  }

  /** When no connection is left, exactly the payloads of the application, those lost by failed sends and the
      pinned ones are, each with just these owners, and as many counted. */
  lemma {:induction false} AllGiven(l: Ledger<Connection>, l': Ledger<Connection>, p: Payload)
    requires OnlyGiven(l, l') && Sound(map[], l') && p in l
    ensures SettledFor(Pinned(l, p), Unconnected(l[p].owners), l', p)
  {
    var left := Unconnected(l[p].owners);
    assert p in l.Keys && AppHolds(l', p) == AppHolds(l, p);
    assert left[App] == AppHolds(l, p) && left[Nobody] == Lost(l, p);
    if p in l' {
      NothingHeld(l', p);
      forall o ensures l'[p].owners[o] == left[o] {
        assert o in l'[p].owners ==> o.App? || o.Nobody?;
      }
      assert l'[p].owners == left;
    } else {
      assert left == multiset{};
    }
  }

  // ------------------------------------------------------------------------------------ connecting

  /** The reference that came with the call becomes the connection's. */
  ghost function Admitted(n: Net, c: Connection, p: Payload): Net
    requires p in n.ledger
  {
    n.(conns := n.conns[c := Cell(NEW, p, [])], ledger := Passed(n.ledger, p, App, Slot(c)))
  }

  /** The reference that came with the call, if any, is released, and an error reported. */
  ghost function Refused(n: Net, p: Payload?): Net
    requires p != null ==> p in n.ledger
  {
    n.(ledger := if p == null then n.ledger else Released(n.ledger, p, App), log := n.log + [ErrorNoted])
  }

  lemma {:induction false} AdmittedSound(n: Net, c: Connection, p: Payload)
    requires Sound(n.conns, n.ledger) && c !in n.conns && p in n.ledger && App in n.ledger[p].owners
    ensures Sound(Admitted(n, c, p).conns, Admitted(n, c, p).ledger)
  {
    var conns, l := Admitted(n, c, p).conns, Admitted(n, c, p).ledger;
    EntryKeeps(n.ledger, Entry.Pass(p, App, Slot(c)));
    assert l.Keys == n.ledger.Keys;
    forall d | d in conns ensures OwnsIts(d, conns[d], l) {
      AdmittedOwns(n, c, p, d);
    }
    forall q | q in l ensures NoGhosts(l[q].owners, conns.Keys) {
      assert NoGhosts(n.ledger[q].owners, n.conns.Keys);
      forall o | o in l[q].owners ensures Living(o, conns.Keys) {
        if o != Slot(c) {
          assert o in n.ledger[q].owners;
          assert Living(o, n.conns.Keys);
        }
      }
    }
  }

  lemma {:induction false} AdmittedOwns(n: Net, c: Connection, p: Payload, d: Connection)
    requires Sound(n.conns, n.ledger) && c !in n.conns && p in n.ledger && App in n.ledger[p].owners
    requires d in Admitted(n, c, p).conns
    ensures OwnsIts(d, Admitted(n, c, p).conns[d], Admitted(n, c, p).ledger)
  {
    var conns, l := Admitted(n, c, p).conns, Admitted(n, c, p).ledger;
    if d != c {
      assert OwnsIts(d, n.conns[d], n.ledger);
    }
    forall q | q in l ensures OwnsOf(d, conns[d], l[q].owners, q) {
      if d != c {
        assert OwnsOf(d, n.conns[d], n.ledger[q].owners, q);
      } else {
        assert NoGhosts(n.ledger[q].owners, n.conns.Keys);
        assert !Living(Slot(c), n.conns.Keys) && !Living(Queue(c), n.conns.Keys);
      }
    }
  }

  lemma {:induction false} RefusedSound(n: Net, p: Payload?)
    requires Sound(n.conns, n.ledger) && (p != null ==> p in n.ledger && App in n.ledger[p].owners)
    ensures Sound(Refused(n, p).conns, Refused(n, p).ledger)
  {
    if p != null {
      var l := Released(n.ledger, p, App);
      ReleasedIsBalanced(n.ledger, p, App);
      forall q | q in l ensures Alike(n.ledger[q].owners, l[q].owners) {
        OneAppLess(n.ledger[q].owners);
      }
      OneAppLess(n.ledger[p].owners);
      SameHoldings(n.conns, n.ledger, l);
    }
  }

  lemma {:induction false} IssuedSound(conns: map<Connection, Cell>, l: Ledger<Connection>, p: Payload)
    requires Sound(conns, l) && p !in l
    ensures Sound(conns, Issued(l, p))
  {
    var l' := Issued(l, p);
    forall c | c in conns ensures OwnsIts(c, conns[c], l') {
      assert OwnsIts(c, conns[c], l);
      assert p !in conns[c].queue && p != conns[c].slot;
      forall q | q in l' ensures OwnsOf(c, conns[c], l'[q].owners, q) {
        assert q != p ==> OwnsOf(c, conns[c], l[q].owners, q);
      }
    }
    forall q | q in l' ensures NoGhosts(l'[q].owners, conns.Keys) {
      assert q != p ==> NoGhosts(l[q].owners, conns.Keys);
    }
  }

  lemma {:induction false} IssuedAndReleased(l: Ledger<Connection>, p: Payload)
    ensures p !in l ==> Released(Issued(l, p), p, App) == l
  {
  }

  lemma {:induction false} OneAppLess(a: multiset<Owner<Connection>>)
    ensures Alike(a, a - multiset{App})
    ensures a == multiset{App} ==> Alike(a, multiset{})
  {
  }

  /** Whichever way connecting ends, it uses up one reference of the caller's, and touches no other. */
  lemma {:induction false} ConnectConsumes(n: Net, c: Connection, p: Payload, after: Net)
    requires Sound(n.conns, n.ledger) && c !in n.conns && p in n.ledger && App in n.ledger[p].owners
    requires after == Admitted(n, c, p) || after == Refused(n, p)
    ensures p in after.ledger ==> after.ledger[p].owners[App] == n.ledger[p].owners[App] - 1
    ensures p !in after.ledger ==> n.ledger[p].owners == multiset{App} && n.ledger[p].count < PINNED
    ensures after.ledger - {p} == n.ledger - {p}
  {
    ReleasedIsBalanced(n.ledger, p, App);
  }
}
