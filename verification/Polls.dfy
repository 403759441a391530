/** A poll of the client as a run of turns, one for each connection: what becomes of the connections, of the
    payloads, and what the application is told. */
module Polls {
  import opened Payloads
  import opened Timers
  import opened Vectors
  import opened Connections
  import Chains

  /** Each of the connections, once. */
  ghost predicate Lists(order: seq<Connection>, conns: set<Connection>) {
    Chains.Distinct(order) && (forall c :: c in order ==> c in conns) && (forall c :: c in conns ==> c in order)
  }

  /** What a handler adds to the result of the poll: nothing if it says -1. */
  function Contribution(cell: Cell, now: nat, luck: Luck): int {
    var verdict := Judged(cell, now, luck).verdict;
    if verdict == -1 then 0 else verdict
  }

  /** Where a poll stands between two turns. */
  datatype Stop = Stop(net: Net, done: int)

  /** A poll after `at` turns: the payloads made, and every stop so far. */
  datatype Journey = Journey(at: nat, made: seq<Payload?>, stops: seq<Stop>)

  /** Turn `i` is that of connection `i`, and leads from stop `i` to the next. */
  ghost predicate TurnAt(j: Journey, order: seq<Connection>, now: nat, luck: Connection -> Luck, i: nat)
    requires i < |j.made| <= |order| && |j.stops| == |j.made| + 1
  {
    var n, c := j.stops[i].net, order[i];
    && CanTurn(n, c, now, luck(c), j.made[i])
    && j.stops[i + 1] == Stop(Turned(n, c, now, luck(c), j.made[i]),
                              j.stops[i].done + Contribution(n.conns[c], now, luck(c)))
  }

  /** The journey has led from `before` here, on its way through `order`. */
  ghost predicate Underway(j: Journey, order: seq<Connection>, before: Net, now: nat, luck: Connection -> Luck,
                           here: Stop) {
    && j.at == |j.made| <= |order| && |j.stops| == j.at + 1
    && j.stops[0] == Stop(before, 0) && j.stops[j.at] == here
    && forall i {:trigger TurnAt(j, order, now, luck, i)} :: 0 <= i < j.at ==> TurnAt(j, order, now, luck, i)
  }

  /** The turns of all the connections in `order`, in this order, lead from `before` to `after`. */
  ghost predicate Turns(j: Journey, order: seq<Connection>, before: Net, now: nat, luck: Connection -> Luck,
                        after: Net, done: int) {
    Underway(j, order, before, now, luck, Stop(after, done)) && j.at == |order|
  }

  /** What the handlers of the first `n` connections add up to, those that say -1 aside. */
  function Total(conns: map<Connection, Cell>, order: seq<Connection>, n: nat, now: nat, luck: Connection -> Luck): int
    requires n <= |order| && forall c :: c in order ==> c in conns
  {
    if n == 0 then 0
    else Total(conns, order, n - 1, now, luck) + Contribution(conns[order[n - 1]], now, luck(order[n - 1]))
  }

  /** What the handlers say, one after the other. */
  function Verdicts(conns: map<Connection, Cell>, order: seq<Connection>, now: nat, luck: Connection -> Luck)
    : (verdicts: seq<int>)
    requires forall c :: c in order ==> c in conns
    ensures |verdicts| == |order|
    ensures forall k {:trigger verdicts[k]} :: 0 <= k < |order| ==>
              verdicts[k] == Judged(conns[order[k]], now, luck(order[k])).verdict
  {
    seq(|order|, k requires 0 <= k < |order| => Judged(conns[order[k]], now, luck(order[k])).verdict)
  }

  /** The sum of the numbers other than -1. */
  function Sum(numbers: seq<int>): int {
    if numbers == [] then 0 else (if numbers[0] == -1 then 0 else numbers[0]) + Sum(numbers[1..])
  }

  lemma {:induction false} SumJoin(a: seq<int>, b: seq<int>)
    ensures Sum(a + b) == Sum(a) + Sum(b)
    ensures |a| == 1 ==> Sum(a) == if a[0] == -1 then 0 else a[0]
    decreases |a|
  {
    if a == [] {
      assert a + b == b;
    } else {
      assert (a + b)[1..] == a[1..] + b;
      SumJoin(a[1..], b);
    }
  }

  lemma {:induction false} SumOfZeros(numbers: seq<int>)
    requires forall k :: 0 <= k < |numbers| ==> numbers[k] == -1 || numbers[k] == 0
    ensures Sum(numbers) == 0
    decreases |numbers|
  {
    if numbers != [] {
      SumOfZeros(numbers[1..]);
    }
  }

  lemma {:induction false} TotalIsSum(conns: map<Connection, Cell>, order: seq<Connection>, n: nat,
                                      now: nat, luck: Connection -> Luck)
    requires n <= |order| && forall c :: c in order ==> c in conns
    ensures Total(conns, order, n, now, luck) == Sum(Verdicts(conns, order, now, luck)[..n])
  {
    if n > 0 {
      var verdicts := Verdicts(conns, order, now, luck);
      TotalIsSum(conns, order, n - 1, now, luck);
      assert verdicts[..n] == verdicts[..n - 1] + [verdicts[n - 1]];
      SumJoin(verdicts[..n - 1], [verdicts[n - 1]]);
      SumJoin([verdicts[n - 1]], []);
    }
  }

  /** What a poll answers: the sum of what the handlers say, those that say -1 aside; so zero if all the others say
      zero. */
  ghost predicate Result(conns: map<Connection, Cell>, order: seq<Connection>, now: nat, luck: Connection -> Luck,
                         done: int)
    requires forall c :: c in order ==> c in conns
  {
    && done == Sum(Verdicts(conns, order, now, luck))
    && ((forall c :: c in order ==> Judged(conns[c], now, luck(c)).verdict in {-1, 0}) ==> done == 0)
  }

  lemma {:induction false} TotalIsResult(conns: map<Connection, Cell>, order: seq<Connection>,
                                         now: nat, luck: Connection -> Luck)
    requires forall c :: c in order ==> c in conns
    ensures Result(conns, order, now, luck, Total(conns, order, |order|, now, luck))
  {
    var verdicts := Verdicts(conns, order, now, luck);
    assert verdicts[..|order|] == verdicts;
    TotalIsSum(conns, order, |order|, now, luck);
    if forall c :: c in order ==> Judged(conns[c], now, luck(c)).verdict in {-1, 0} {
      forall k | 0 <= k < |verdicts| ensures verdicts[k] == -1 || verdicts[k] == 0 {
        assert order[k] in order;
      }
      SumOfZeros(verdicts);
    }
  }

  /** What the application is told of each connection. */
  function AllTold(conns: map<Connection, Cell>, order: seq<Connection>, now: nat, luck: Connection -> Luck)
    : (told: seq<seq<Note>>)
    requires forall c :: c in order ==> c in conns
    ensures |told| == |order|
    ensures forall k {:trigger told[k]} :: 0 <= k < |order| ==>
              told[k] == Told(conns[order[k]], order[k], now, luck(order[k]))
  {
    seq(|order|, k requires 0 <= k < |order| => Told(conns[order[k]], order[k], now, luck(order[k])))
  }

  function Joined(told: seq<seq<Note>>, n: nat): seq<Note>
    requires n <= |told|
  {
    if n == 0 then [] else Joined(told, n - 1) + told[n - 1]
  }

  /** What the application is told of the first `n` connections, in their order. */
  function Tellings(conns: map<Connection, Cell>, order: seq<Connection>, n: nat, now: nat, luck: Connection -> Luck)
    : seq<Note>
    requires n <= |order| && forall c :: c in order ==> c in conns
  {
    Joined(AllTold(conns, order, now, luck), n)
  }

  /** How many of the first `n` connections send the payload in vain. */
  function Failures(conns: map<Connection, Cell>, order: seq<Connection>, n: nat, now: nat, luck: Connection -> Luck,
                    p: Payload): nat
    requires n <= |order| && forall c :: c in order ==> c in conns
  {
    if n == 0 then 0
    else Failures(conns, order, n - 1, now, luck, p) + FailedSend(conns[order[n - 1]], now, luck(order[n - 1]), p)
  }

  /** The handler of a connection has run once: the connection is gone exactly if the handler said -1, and
      otherwise it is as the handler left it. */
  ghost predicate HandledOnce(before: map<Connection, Cell>, after: map<Connection, Cell>, c: Connection,
                              now: nat, luck: Luck)
    requires c in before
  {
    && (c in after <==> Judged(before[c], now, luck).verdict != -1)
    && (c in after ==> Follows(before[c], after[c], now, luck))
  }

  lemma {:induction false} SameButOne<V>(m: map<Connection, V>, m1: map<Connection, V>, c: Connection, d: Connection)
    requires m - {c} == m1 - {c} && d != c
    ensures d in m <==> d in m1
    ensures d in m ==> m[d] == m1[d]
  {
    assert d in m <==> d in m - {c};
    assert d in m1 <==> d in m1 - {c};
    assert d in m ==> (m - {c})[d] == m[d];
    assert d in m1 ==> (m1 - {c})[d] == m1[d];
  }

  // ------------------------------------------------------------------------------------ stop by stop

  /** A turn leaves the other connections alone. */
  lemma {:induction false} TurnApart(j: Journey, order: seq<Connection>, before: Net,
                                     now: nat, luck: Connection -> Luck,
                                     here: Stop, i: nat, c: Connection)
    requires Underway(j, order, before, now, luck, here) && i < j.at && order[i] != c
    ensures var m, n := j.stops[i].net.conns, j.stops[i + 1].net.conns;
            (c in m <==> c in n) && (c in m ==> m[c] == n[c])
  {
    assert TurnAt(j, order, now, luck, i);
    var m, d := j.stops[i].net, order[i];
    TurnFrame(m, d, now, luck(d), j.made[i]);
    SameButOne(m.conns, j.stops[i + 1].net.conns, d, c);
  }

  /** A connection whose turn has not come is as it was. */
  lemma {:induction false} StillAsWas(j: Journey, order: seq<Connection>, before: Net,
                                      now: nat, luck: Connection -> Luck,
                                      here: Stop, i: nat, c: Connection)
    requires Underway(j, order, before, now, luck, here) && i <= j.at
    requires forall k {:trigger order[k]} :: 0 <= k < i ==> order[k] != c
    ensures var m, n := before.conns, j.stops[i].net.conns;
            (c in m <==> c in n) && (c in m ==> m[c] == n[c])
  {
    if i > 0 {
      StillAsWas(j, order, before, now, luck, here, i - 1, c);
      TurnApart(j, order, before, now, luck, here, i - 1, c);
    }
  }

  /** Connection `i` is as it was when its turn comes. */
  lemma {:induction false} NextAsWas(j: Journey, order: seq<Connection>, before: Net,
                                     now: nat, luck: Connection -> Luck,
                                     here: Stop, i: nat)
    requires Underway(j, order, before, now, luck, here) && Chains.Distinct(order) && i <= j.at && i < |order|
    ensures var m, n, c := before.conns, j.stops[i].net.conns, order[i];
            (c in m <==> c in n) && (c in m ==> m[c] == n[c])
  {
    forall k | 0 <= k < i ensures order[k] != order[i] {
      Chains.DistinctApart(order, k, i);
    }
    StillAsWas(j, order, before, now, luck, here, i, order[i]);
  }

  /** A connection whose turn has come has been handled once. */
  lemma {:induction false} HandledPast(j: Journey, order: seq<Connection>, before: Net,
                                       now: nat, luck: Connection -> Luck,
                                       here: Stop, i: nat, k: nat)
    requires Underway(j, order, before, now, luck, here) && Chains.Distinct(order) && k < i <= j.at
    ensures order[k] in before.conns
    ensures HandledOnce(before.conns, j.stops[i].net.conns, order[k], now, luck(order[k]))
  {
    if k == i - 1 {
      NextAsWas(j, order, before, now, luck, here, k);
      assert TurnAt(j, order, now, luck, k);
      TurnFrame(j.stops[k].net, order[k], now, luck(order[k]), j.made[k]);
    } else {
      HandledPast(j, order, before, now, luck, here, i - 1, k);
      Chains.DistinctApart(order, k, i - 1);
      TurnApart(j, order, before, now, luck, here, i - 1, order[k]);
    }
  }

  /** The result, and what the application is told. */
  lemma {:induction false} StopTold(j: Journey, order: seq<Connection>, before: Net, now: nat, luck: Connection -> Luck,
                                    here: Stop, i: nat)
    requires Underway(j, order, before, now, luck, here) && Lists(order, before.conns.Keys) && i <= j.at
    ensures j.stops[i].done == Total(before.conns, order, i, now, luck)
    ensures j.stops[i].net.log == before.log + Tellings(before.conns, order, i, now, luck)
  {
    if i > 0 {
      var m, c := j.stops[i - 1].net, order[i - 1];
      StopTold(j, order, before, now, luck, here, i - 1);
      NextAsWas(j, order, before, now, luck, here, i - 1);
      assert TurnAt(j, order, now, luck, i - 1);
      TurnFrame(m, c, now, luck(c), j.made[i - 1]);
      Appended(before.log, Tellings(before.conns, order, i - 1, now, luck), Told(before.conns[c], c, now, luck(c)));
    }
  }

  /** What becomes of each payload: the application holds what it held, each send in vain loses one reference,
      no other is lost, and what is pinned stays so. */
  lemma {:induction false} StopPayload(j: Journey, order: seq<Connection>, before: Net,
                                       now: nat, luck: Connection -> Luck,
                                       here: Stop, i: nat, p: Payload)
    requires Underway(j, order, before, now, luck, here) && Lists(order, before.conns.Keys) && i <= j.at
    ensures var l, l' := before.ledger, j.stops[i].net.ledger;
            && AppHolds(l', p) == AppHolds(l, p)
            && Lost(l', p) == Lost(l, p) + Failures(before.conns, order, i, now, luck, p)
            && (Pinned(l, p) ==> Pinned(l', p))
  {
    if i > 0 {
      var m, c := j.stops[i - 1].net, order[i - 1];
      StopPayload(j, order, before, now, luck, here, i - 1, p);
      NextAsWas(j, order, before, now, luck, here, i - 1);
      assert TurnAt(j, order, now, luck, i - 1);
      TurnKeepsApp(m, c, now, luck(c), j.made[i - 1]);
      TurnLoses(m, c, now, luck(c), j.made[i - 1], p);
      var l := j.stops[i].net.ledger;
      assert p in m.ledger.Keys + l.Keys ==> AppHolds(l, p) == AppHolds(m.ledger, p);
    }
  }

  // ------------------------------------------------------------------------------------ a whole poll

  /** The references lost from one ledger to the next are those of sends in vain. */
  ghost predicate LostInVain(l: Ledger<Connection>, l': Ledger<Connection>, conns: map<Connection, Cell>,
                             order: seq<Connection>, now: nat, luck: Connection -> Luck)
    requires forall c :: c in order ==> c in conns
  {
    forall p {:trigger Lost(l, p)} {:trigger Lost(l', p)} :: p in l.Keys + l'.Keys ==>
      Lost(l', p) == Lost(l, p) + Failures(conns, order, |order|, now, luck, p)
  }

  ghost predicate PinsKept(l: Ledger<Connection>, l': Ledger<Connection>) {
    forall p {:trigger Pinned(l, p)} {:trigger Pinned(l', p)} :: p in l && Pinned(l, p) ==> Pinned(l', p)
  }

  lemma {:induction false} TurnsPayloads(j: Journey, order: seq<Connection>, before: Net,
                                         now: nat, luck: Connection -> Luck,
                                         after: Net, done: int)
    requires Turns(j, order, before, now, luck, after, done) && Lists(order, before.conns.Keys)
    ensures AppKept(before.ledger, after.ledger) && PinsKept(before.ledger, after.ledger)
    ensures LostInVain(before.ledger, after.ledger, before.conns, order, now, luck)
  {
    forall p | p in before.ledger.Keys + after.ledger.Keys
      ensures AppHolds(after.ledger, p) == AppHolds(before.ledger, p)
      ensures Lost(after.ledger, p) == Lost(before.ledger, p) + Failures(before.conns, order, |order|, now, luck, p)
      ensures Pinned(before.ledger, p) ==> Pinned(after.ledger, p)
    {
      StopPayload(j, order, before, now, luck, Stop(after, done), |order|, p);
    }
  }

  /** All that a poll of all connections comes to. */
  lemma {:induction false} PollIs(j: Journey, order: seq<Connection>, before: Net, now: nat, luck: Connection -> Luck,
                                  after: Net, done: int)
    requires Turns(j, order, before, now, luck, after, done) && Lists(order, before.conns.Keys)
    ensures forall c :: c in before.conns ==> HandledOnce(before.conns, after.conns, c, now, luck(c))
    ensures forall c :: c in after.conns ==> c in before.conns
    ensures Result(before.conns, order, now, luck, done)
    ensures after.log == before.log + Tellings(before.conns, order, |order|, now, luck)
    ensures AppKept(before.ledger, after.ledger) && PinsKept(before.ledger, after.ledger)
    ensures LostInVain(before.ledger, after.ledger, before.conns, order, now, luck)
  {
    var here := Stop(after, done);
    StopTold(j, order, before, now, luck, here, |order|);
    TotalIsResult(before.conns, order, now, luck);
    TurnsPayloads(j, order, before, now, luck, after, done);
    forall c | c in before.conns ensures HandledOnce(before.conns, after.conns, c, now, luck(c)) {
      assert c in order;
      var k :| 0 <= k < |order| && order[k] == c;
      HandledPast(j, order, before, now, luck, here, |order|, k);
    }
    forall c | c in after.conns ensures c in before.conns {
      if c !in order {
        StillAsWas(j, order, before, now, luck, here, |order|, c);
      }
    }
  }

  // ------------------------------------------------------------------------------------ a poll under way

  ghost function Tail(left: seq<Connection>): seq<Connection> {
    if left == [] then [] else left[1..]
  }

  /** The connections still to come. */
  ghost function Still(order: seq<Connection>, at: nat): seq<Connection>
    requires at <= |order|
  {
    order[at..]
  }

  /** The connection whose turn is next is there, and does not come again. */
  lemma {:induction false} NextIs(j: Journey, order: seq<Connection>, before: Net, now: nat, luck: Connection -> Luck,
                                  here: Stop)
    requires Underway(j, order, before, now, luck, here) && Lists(order, before.conns.Keys) && j.at < |order|
    ensures order[j.at] in here.net.conns && order[j.at] !in Still(order, j.at + 1)
    ensures Still(order, j.at) != [] && Still(order, j.at)[0] == order[j.at]
    ensures Tail(Still(order, j.at)) == Still(order, j.at + 1)
  {
    NextAsWas(j, order, before, now, luck, here, j.at);
    forall k | j.at < k < |order| ensures order[k] != order[j.at] {
      Chains.DistinctApart(order, j.at, k);
    }
  }

  lemma {:induction false} Onward(j: Journey, order: seq<Connection>, before: Net, now: nat, luck: Connection -> Luck,
                                  here: Stop, q: Payload?, next: Stop) returns (j': Journey)
    requires Underway(j, order, before, now, luck, here) && j.at < |order|
    requires CanTurn(here.net, order[j.at], now, luck(order[j.at]), q)
    requires next == Stop(Turned(here.net, order[j.at], now, luck(order[j.at]), q),
                          here.done + Contribution(here.net.conns[order[j.at]], now, luck(order[j.at])))
    ensures Underway(j', order, before, now, luck, next)
    ensures j'.at == j.at + 1 && forall r :: r in j'.made ==> r in j.made || r == q
  {
    j' := Journey(j.at + 1, j.made + [q], j.stops + [next]);
    forall i | 0 <= i < j'.at ensures TurnAt(j', order, now, luck, i) {
      assert i < j.at ==> TurnAt(j, order, now, luck, i);
    }
  }

  // ------------------------------------------------------------------------------------ what is said of an end

  predicate Connecting(t: Timer) {
    t.phase == Preconnect || t.phase == Initial
  }

  /** The handler ends a connection that has got past connecting. */
  predicate Announced(cell: Cell, now: nat, luck: Luck) {
    Judged(cell, now, luck).verdict == -1 && !Connecting(cell.timer)
  }

  /** How often the application is told this. */
  function Count(notes: seq<Note>, note: Note): nat {
    if notes == [] then 0 else Count(notes[..|notes| - 1], note) + if notes[|notes| - 1] == note then 1 else 0
  }

  lemma {:induction false} CountJoin(a: seq<Note>, b: seq<Note>, note: Note)
    ensures Count(a + b, note) == Count(a, note) + Count(b, note)
    decreases |b|
  {
    if b == [] {
      assert a + b == a;
    } else {
      assert (a + b)[..|a + b| - 1] == a + b[..|b| - 1];
      CountJoin(a, b[..|b| - 1], note);
    }
  }

  /** How often `c` is among the first `n` connections. */
  function Times(order: seq<Connection>, n: nat, c: Connection): nat
    requires n <= |order|
  {
    if n == 0 then 0 else Times(order, n - 1, c) + if order[n - 1] == c then 1 else 0
  }

  lemma {:induction false} TimesBefore(order: seq<Connection>, n: nat, c: Connection)
    requires n <= |order| && forall k {:trigger order[k]} :: 0 <= k < n ==> order[k] != c
    ensures Times(order, n, c) == 0
  {
    if n > 0 {
      TimesBefore(order, n - 1, c);
    }
  }

  lemma {:induction false} TimesOnce(order: seq<Connection>, n: nat, k: nat)
    requires Chains.Distinct(order) && k < n <= |order|
    ensures Times(order, n, order[k]) == 1
  {
    if k < n - 1 {
      Chains.DistinctApart(order, k, n - 1);
      TimesOnce(order, n - 1, k);
    } else {
      forall i | 0 <= i < k ensures order[i] != order[k] {
        Chains.DistinctApart(order, i, k);
      }
      TimesBefore(order, k, order[k]);
    }
  }

  lemma {:induction false} JoinedCount(told: seq<seq<Note>>, order: seq<Connection>, c: Connection, said: bool, n: nat)
    requires |told| == |order| && n <= |order|
    requires forall k {:trigger told[k]} :: 0 <= k < |told| ==>
               Count(told[k], Disconnected(c)) == if said && order[k] == c then 1 else 0
    ensures Count(Joined(told, n), Disconnected(c)) == if said then Times(order, n, c) else 0
  {
    if n > 0 {
      JoinedCount(told, order, c, said, n - 1);
      CountJoin(Joined(told, n - 1), told[n - 1], Disconnected(c));
    }
  }

  lemma {:induction false} EndTimes(conns: map<Connection, Cell>, order: seq<Connection>,
                                    now: nat, luck: Connection -> Luck, c: Connection)
    requires (forall d :: d in order ==> d in conns) && c in conns
    ensures Count(Tellings(conns, order, |order|, now, luck), Disconnected(c))
         == if Announced(conns[c], now, luck(c)) then Times(order, |order|, c) else 0
  {
    var told, said := AllTold(conns, order, now, luck), Announced(conns[c], now, luck(c));
    forall k | 0 <= k < |told| ensures Count(told[k], Disconnected(c)) == if said && order[k] == c then 1 else 0 {
      EndTold(conns[order[k]], order[k], now, luck(order[k]), c);
    }
    JoinedCount(told, order, c, said, |order|);
  }

  /** The application is told of the end of a connection that a poll destroys exactly if the connection had
      got past connecting, and then once. */
  lemma {:induction false} EndsTold(conns: map<Connection, Cell>, order: seq<Connection>,
                                    now: nat, luck: Connection -> Luck, c: Connection)
    requires Lists(order, conns.Keys) && c in conns
    ensures Count(Tellings(conns, order, |order|, now, luck), Disconnected(c))
         == if Announced(conns[c], now, luck(c)) then 1 else 0
  {
    assert c in order;
    var k :| 0 <= k < |order| && order[k] == c;
    EndTimes(conns, order, now, luck, c);
    TimesOnce(order, |order|, k);
  }

  lemma {:induction false} SamePhase(cell: Cell, now: nat, luck: Luck)
    ensures var t := Judged(cell, now, luck).timer;
            Connecting(t) <==> Connecting(cell.timer)
  {
  }

  lemma {:induction false} EndTold(cell: Cell, d: Connection, now: nat, luck: Luck, c: Connection)
    ensures Count(Told(cell, d, now, luck), Disconnected(c)) == if c == d && Announced(cell, now, luck) then 1 else 0
  {
    SamePhase(cell, now, luck);
    var o := Judged(cell, now, luck);
    var errors := if o.action == Idle && !Appends(cell.queue, luck.room) then [ErrorNoted] else [];
    var end := if o.verdict == -1 then Farewell(o.timer, d) else [];
    assert Told(cell, d, now, luck) == errors + end;
    NoteCount(errors, end, c, d);
  }

  lemma {:induction false} NoteCount(errors: seq<Note>, end: seq<Note>, c: Connection, d: Connection)
    requires errors == [] || errors == [ErrorNoted]
    requires end == [] || end == [Disconnected(d)]
    ensures Count(errors + end, Disconnected(c)) == if end != [] && c == d then 1 else 0
  {
    CountJoin(errors, end, Disconnected(c));
    assert errors != [] ==> errors[..|errors| - 1] == [];
    assert end != [] ==> end[..|end| - 1] == [];
  }

  /** One connection that has been sent ten times, and whose payload nobody else owns. */
  ghost function Unanswered(c: Connection, p: Payload): Net {
    Net(map[c := Cell(Timer(Initial, 0, 0, 10), p, [])], map[p := Account(1, multiset{Slot(c)})], [])
  }

  /** At its next turn it is destroyed, and the application is told nothing and given nothing back. */
  lemma {:induction false} EndsInSilence(c: Connection, p: Payload)
    ensures var n := Unanswered(c, p);
            && CanTurn(n, c, 300001, FINE, null)
            && Turned(n, c, 300001, FINE, null) == Net(map[], map[], [])
  {
    var n := Unanswered(c, p);
    assert multiset(n.conns[c].queue)[p] == 0;
    assert OwnsOf(c, n.conns[c], n.ledger[p].owners, p);
    assert OwnsIts(c, n.conns[c], n.ledger);
    assert NoGhosts(n.ledger[p].owners, n.conns.Keys);
    assert Since(300001, 0) == 300001;
    assert Judged(n.conns[c], 300001, FINE) == Outcome(Timer(Initial, 300001, 0, 10), -1, Nothing);
  }

  // ------------------------------------------------------------------------------------ many polls

  /** Every handler's sends go through, and its queue takes what it can. */
  function Fine(c: Connection): Luck {
    FINE
  }

  /** What `Timers` says of a timer after the first `n` polls. */
  function Watched(t: Timer, start: nat, times: seq<nat>, n: nat): Track
    requires n <= |times|
  {
    Timers.Run(Track(t, [], start, false), times[..n])
  }

  /** After `n` polls a connection is as its track says: if it is there, it has not been given up, and its timer
      is that of the track; and if its queue had room enough, it is there exactly if it has not been given up. */
  ghost predicate Tracked(before: map<Connection, Cell>, after: map<Connection, Cell>, c: Connection, k: Track, n: nat)
    requires c in before
  {
    && (c in after ==> !k.gone && after[c].timer == k.timer && |after[c].queue| <= |before[c].queue| + n)
    && (|before[c].queue| + n <= MAX_COUNT ==> (c in after <==> !k.gone))
  }

  lemma {:induction false} TrackedOn(before: map<Connection, Cell>, mid: map<Connection, Cell>,
                                     after: map<Connection, Cell>,
                                     c: Connection, t: Timer, start: nat, times: seq<nat>, n: nat)
    requires c in before && n < |times| && Tracked(before, mid, c, Watched(t, start, times, n), n)
    requires c in mid ==> HandledOnce(mid, after, c, times[n], FINE)
    requires c !in mid ==> c !in after
    ensures Tracked(before, after, c, Watched(t, start, times, n + 1), n + 1)
  {
    assert times[..n + 1] == times[..n] + [times[n]];
    RunOneMore(Track(t, [], start, false), times[..n], times[n]);
    if c in mid {
      JudgedFine(mid[c], times[n]);
    }
  }

  /** A full queue changes only the verdict of a handler that has something to queue. */
  lemma {:induction false} JudgedFine(cell: Cell, now: nat)
    ensures Judged(cell, now, FINE).timer == React(cell.timer, now, FINE).timer
    ensures Judged(cell, now, FINE).verdict != -1 ==> React(cell.timer, now, FINE).verdict != -1
    ensures |cell.queue| < MAX_COUNT ==> Judged(cell, now, FINE) == React(cell.timer, now, FINE)
  {
  }

  /** A track for each connection, after each number of polls. */
  type Fates = seq<map<Connection, Track>>

  /** `fates` holds, for each number of polls, what `Timers` says of each connection. */
  ghost predicate Foretold(fates: Fates, before: map<Connection, Cell>, start: nat, times: seq<nat>) {
    && |fates| == |times| + 1
    && forall i {:trigger FateAt(fates, before, start, times, i)} :: 0 <= i <= |times| ==>
         FateAt(fates, before, start, times, i)
  }

  ghost predicate FateAt(fates: Fates, before: map<Connection, Cell>, start: nat, times: seq<nat>, i: nat)
    requires i <= |times| && |fates| == |times| + 1
  {
    forall c :: c in before ==> c in fates[i] && fates[i][c] == Watched(before[c].timer, start, times, i)
  }

  lemma {:induction false} Foretell(before: map<Connection, Cell>, start: nat, times: seq<nat>)
    returns (fates: Fates)
    ensures Foretold(fates, before, start, times)
  {
    fates := seq(|times| + 1, i requires 0 <= i <= |times| =>
      map c | c in before :: Watched(before[c].timer, start, times, i));
  }

  /** No connection has come, and each that was there is as its track says. */
  ghost predicate AllTracked(before: map<Connection, Cell>, after: map<Connection, Cell>, fate: map<Connection, Track>,
                             n: nat) {
    && (forall c {:trigger c in after} :: c in after ==> c in before)
    && (forall c {:trigger c in before} :: c in before ==> c in fate && Tracked(before, after, c, fate[c], n))
  }

  lemma {:induction false} NotPolled(conns: map<Connection, Cell>, fates: Fates, start: nat, times: seq<nat>)
    requires Foretold(fates, conns, start, times)
    ensures AllTracked(conns, conns, fates[0], 0)
  {
    assert FateAt(fates, conns, start, times, 0);
  }

  lemma {:induction false} AllTrackedOn(before: map<Connection, Cell>, mid: map<Connection, Cell>,
                                        after: map<Connection, Cell>, fates: Fates,
                                        start: nat, times: seq<nat>, n: nat)
    requires n < |times| && Foretold(fates, before, start, times) && AllTracked(before, mid, fates[n], n)
    requires forall c :: c in mid ==> HandledOnce(mid, after, c, times[n], Fine(c))
    requires forall c :: c in after ==> c in mid
    ensures AllTracked(before, after, fates[n + 1], n + 1)
  {
    assert FateAt(fates, before, start, times, n) && FateAt(fates, before, start, times, n + 1);
    forall c | c in before ensures c in fates[n + 1] && Tracked(before, after, c, fates[n + 1][c], n + 1) {
      TrackedOn(before, mid, after, c, before[c].timer, start, times, n);
    }
  }

  /** A connected peer that stays silent, polled by the client: it is gone from the first poll on that comes
      more than 5,000,000 microseconds after it was last heard of, and there until then. */
  lemma {:induction false} SilentFate(before: map<Connection, Cell>, after: map<Connection, Cell>, c: Connection,
                                      start: nat, times: seq<nat>)
    requires c in before && before[c].timer.phase == Connected && Clock(start, times)
    requires before[c].timer.lastTransmit <= start < WRAP && before[c].timer.lastReceive <= start
    requires Tracked(before, after, c, Watched(before[c].timer, start, times, |times|), |times|)
    ensures c in after ==> forall now :: now in times ==> now <= before[c].timer.lastReceive + 5000000
    ensures |before[c].queue| + |times| <= MAX_COUNT ==>
              (c in after <==> forall now :: now in times ==> now <= before[c].timer.lastReceive + 5000000)
  {
    assert times[..|times|] == times;
    IdleSchedule(before[c].timer, start, times);
  }

  /** A connection nobody answers, polled by the client: it has been sent at the polls at which that was due, and is
      there exactly as long as giving up has not been due; so polled at least every `d` microseconds, no longer than
      2,100,000 + 9 * `d` microseconds after it was first sent. */
  lemma {:induction false} UnansweredFate(before: map<Connection, Cell>, after: map<Connection, Cell>, c: Connection,
                                          times: seq<nat>, d: nat)
    requires c in before && before[c].timer == NEW && Clock(0, times) && Within(d, times)
    requires Tracked(before, after, c, Watched(NEW, 0, times, |times|), |times|)
    ensures var k := Watched(NEW, 0, times, |times|);
            var sent := k.acts;
            && Punctual(k, times)
            && |sent| <= 10
            && (c in after ==> forall now :: now in times ==> now <= DueAfter(sent, |sent|))
            && (c in after && sent != [] && times != [] ==> times[|times| - 1] <= sent[0] + 2100000 + 9 * d)
            && (c !in after && |before[c].queue| + |times| <= MAX_COUNT ==>
                  && |sent| == 10 && (exists now :: now in times && now > sent[9] + 300000)
                  && exists i :: 0 <= i < |times| && times[i] >= sent[0] + 2100010)
  {
    assert times[..|times|] == times;
    RetransmitSchedule(times, d);
    LastIsPoll(Track(NEW, [], 0, false), times);
  }

  lemma {:induction false} LastIsPoll(k: Track, times: seq<nat>)
    ensures Timers.Run(k, times).last == k.last || exists i :: 0 <= i < |times| && times[i] == Timers.Run(k, times).last
    decreases |times|
  {
    if times != [] && !k.gone {
      LastIsPoll(Timers.Polled(k, times[0]), times[1..]);
    }
  }
}
