/** Reference-counted payloads, and the ledger of who owns each reference. */
module Payloads {

  /** A count that reaches this stays there: the payload lives forever. */
  const PINNED: nat := 0xffff

  /** `udp_payload_t`. A payload that has been freed is no longer in the ledger. */
  class Payload {
    var refcount: nat

    /** `udp_payload_new`. */
    constructor ()
      ensures refcount == 1
    {
      refcount := 1;
    }

    /** `udp_payload_hold`. An error is reported for a dead payload and for a pinned one. */
    method Hold() returns (error: bool)
      modifies this
      ensures refcount == if 0 < old(refcount) < 0xffff then old(refcount) + 1 else old(refcount)
      ensures error <==> old(refcount) == refcount
    {
      if refcount == 0 {
        return true;
      }
      if refcount < PINNED {
        refcount := refcount + 1;
        return false;
      } else {
        return true;
      }
    }

    /** `udp_payload_release`. */
    method Release() returns (error: bool, freed: bool)
      modifies this
      ensures refcount == if 0 < old(refcount) < 0xffff then old(refcount) - 1 else old(refcount)
      ensures error <==> old(refcount) == 0
      ensures freed <==> old(refcount) == 1
    {
      error, freed := false, false;
      if refcount == 0 {
        return true, false;
      }
      if refcount < PINNED {
        refcount := refcount - 1;
        if refcount == 0 {
          freed := true;
        }
      }
    }
  }

  /** Who owns a reference: the application, the connect slot of a connection, a place in the queue of a
      connection or peer, or nobody any more. */
  datatype Owner<H> = App | Slot(holder: H) | Queue(holder: H) | Nobody

  datatype Account<H(==)> = Account(count: nat, owners: multiset<Owner<H>>)

  /** The live payloads. */
  type Ledger<H(==)> = map<Payload, Account<H>>

  /** Each count is the number of owners, unless it is pinned. */
  ghost predicate Balanced<H>(l: Ledger<H>) {
    forall p :: p in l ==> 0 < l[p].count <= PINNED && (l[p].count < PINNED ==> l[p].count == |l[p].owners|)
  }

  ghost function Issued<H>(l: Ledger<H>, p: Payload): Ledger<H> {
    l[p := Account(1, multiset{App})]
  }

  ghost function Held<H>(l: Ledger<H>, p: Payload, who: Owner<H>): Ledger<H>
    requires p in l
  {
    var n := l[p].count;
    l[p := Account(if 0 < n < PINNED then n + 1 else n, l[p].owners + multiset{who})]
  }

  ghost function Released<H>(l: Ledger<H>, p: Payload, who: Owner<H>): Ledger<H>
    requires p in l
  {
    var n := l[p].count;
    if n == 1 then l - {p}
    else l[p := Account(if 0 < n < PINNED then n - 1 else n, l[p].owners - multiset{who})]
  }

  /** A reference changes hands. */
  ghost function Passed<H>(l: Ledger<H>, p: Payload, from: Owner<H>, to: Owner<H>): Ledger<H>
    requires p in l
  {
    l[p := Account(l[p].count, l[p].owners - multiset{from} + multiset{to})]
  }

  lemma {:induction false} ReleasedIsBalanced<H>(l: Ledger<H>, p: Payload, who: Owner<H>)
    requires Balanced(l) && p in l && who in l[p].owners
    ensures Balanced(Released(l, p, who))
    ensures p !in Released(l, p, who) <==> l[p].count < PINNED && l[p].owners == multiset{who}
  {
    var left := l[p].owners - multiset{who};
    assert l[p].owners == left + multiset{who};
    assert |left| == 0 ==> left == multiset{};
  }

  // ------------------------------------------------------------------------------------ releasing many

  ghost function ReleasedAll<H>(l: Ledger<H>, items: seq<Payload>, who: Owner<H>): Ledger<H>
    decreases |items|
  {
    if items == [] then l
    else if items[0] !in l then l
    else ReleasedAll(Released(l, items[0], who), items[1..], who)
  }

  /** The owner has at least the references it is about to give up. */
  ghost predicate Owns<H>(l: Ledger<H>, items: seq<Payload>, who: Owner<H>) {
    forall p :: p in items ==> p in l && multiset(items)[p] <= l[p].owners[who]
  }

  ghost function Struck<O>(owners: multiset<O>, who: O, n: nat): multiset<O>
    requires n <= owners[who]
  {
    owners[who := owners[who] - n]
  }

  ghost function Left<H>(l: Ledger<H>, p: Payload, items: seq<Payload>, who: Owner<H>): multiset<Owner<H>>
    requires p in l && multiset(items)[p] <= l[p].owners[who]
  {
    Struck(l[p].owners, who, multiset(items)[p])
  }

  /** What becomes of a payload when `left` are the owners left: it is freed if it is not pinned and nobody
      is left. */
  ghost predicate SettledFor<H>(pinned: bool, left: multiset<Owner<H>>, after: Ledger<H>, p: Payload) {
    && (p in after <==> pinned || left != multiset{})
    && (p in after ==> after[p] == Account(if pinned then PINNED else |left|, left))
  }

  lemma {:induction false} OwnsRest<H>(l: Ledger<H>, items: seq<Payload>, who: Owner<H>)
    requires Balanced(l) && items != [] && Owns(l, items, who)
    ensures items[0] in l && who in l[items[0]].owners
    ensures Owns(Released(l, items[0], who), items[1..], who)
  {
    var p := items[0];
    assert p in items;
    assert items == [p] + items[1..];
    assert multiset(items) == multiset{p} + multiset(items[1..]);
    forall q | q in items[1..]
      ensures q in Released(l, p, who) && multiset(items[1..])[q] <= Released(l, p, who)[q].owners[who]
    {
      assert q in items && multiset(items[1..])[q] > 0;
      if q == p {
        ReleasedIsBalanced(l, p, who);
      }
    }
  }

  lemma {:induction false} Occurrences(items: seq<Payload>, q: Payload)
    requires items != []
    ensures multiset(items)[q] == (if q == items[0] then 1 else 0) + multiset(items[1..])[q]
  {
    assert items == [items[0]] + items[1..];
  }

  lemma {:induction false} StruckOff<O>(owners: multiset<O>, who: O, n: nat)
    requires n + 1 <= owners[who]
    ensures Struck(owners - multiset{who}, who, n) == Struck(owners, who, n + 1)
  {
  }

  lemma {:induction false} StruckOut<O>(owners: multiset<O>, who: O, n: nat)
    requires owners == multiset{who} && n + 1 <= owners[who]
    ensures Struck(owners, who, n + 1) == multiset{}
  {
  }

  lemma {:induction false} LeftStep<H>(l: Ledger<H>, items: seq<Payload>, who: Owner<H>, q: Payload)
    requires Balanced(l) && items != [] && q in l && items[0] in l && who in l[items[0]].owners
    requires multiset(items)[q] <= l[q].owners[who]
    ensures var next := Released(l, items[0], who);
            if q in next
            then multiset(items[1..])[q] <= next[q].owners[who]
              && Left(next, q, items[1..], who) == Left(l, q, items, who)
              && (next[q].count == PINNED <==> l[q].count == PINNED)
            else l[q].count != PINNED && Left(l, q, items, who) == multiset{}
  {
    Occurrences(items, q);
    if q == items[0] {
      ReleasedIsBalanced(l, q, who);
      var n := multiset(items[1..])[q];
      if q in Released(l, q, who) {
        StruckOff(l[q].owners, who, n);
      } else {
        StruckOut(l[q].owners, who, n);
      }
    }
  }

  /** Releasing a list of references settles every account: the owner is struck off once for each occurrence,
      the others keep theirs, and nothing is freed while somebody is left. */
  lemma {:induction false} Settled<H>(l: Ledger<H>, items: seq<Payload>, who: Owner<H>)
    requires Balanced(l) && Owns(l, items, who)
    ensures Balanced(ReleasedAll(l, items, who))
    ensures ReleasedAll(l, items, who).Keys <= l.Keys
    ensures forall p :: p in l ==>
              && multiset(items)[p] <= l[p].owners[who]
              && SettledFor(l[p].count == PINNED, Left(l, p, items, who), ReleasedAll(l, items, who), p)
    decreases |items|
  {
    forall p | p in l ensures multiset(items)[p] <= l[p].owners[who] {
      if multiset(items)[p] > 0 {
        assert p in items;
      }
    }
    if items == [] {
      forall p | p in l ensures SettledFor(l[p].count == PINNED, Left(l, p, items, who), l, p) {
        assert Left(l, p, items, who) == l[p].owners;
      }
    } else {
      var p, rest := items[0], items[1..];
      OwnsRest(l, items, who);
      ReleasedIsBalanced(l, p, who);
      var next := Released(l, p, who);
      Settled(next, rest, who);
      forall q | q in l
        ensures SettledFor(l[q].count == PINNED, Left(l, q, items, who), ReleasedAll(l, items, who), q)
      {
        LeftStep(l, items, who, q);
        if q in next {
          assert SettledFor(next[q].count == PINNED, Left(next, q, rest, who), ReleasedAll(next, rest, who), q);
        }
      }
    }
  }

  // ------------------------------------------------------------------------------------ in memory

  ghost predicate HoldsPayload<H>(q: Payload, account: Account<H>)
    reads q
  {
    q.refcount == account.count
  }

  ghost function Live<H>(l: Ledger<H>): set<object> {
    set q | q in l
  }

  /** The loops that empty a queue: each payload in it is released once. */
  method ReleaseEach<H>(queue: seq<Payload>, ghost ledger: Ledger<H>, ghost who: Owner<H>)
    requires Balanced(ledger) && Owns(ledger, queue, who)
    requires forall q {:trigger HoldsPayload(q, ledger[q])} :: q in ledger ==> HoldsPayload(q, ledger[q])
    modifies Live(ledger)
    ensures var after := ReleasedAll(ledger, queue, who);
            && after.Keys <= ledger.Keys
            && forall q {:trigger HoldsPayload(q, after[q])} :: q in after ==> HoldsPayload(q, after[q])
  {
    ghost var l := ledger;
    assert queue[0..] == queue;
    var i := 0;
    while i != |queue|
      invariant 0 <= i <= |queue|
      invariant ReleasedAll(l, queue[i..], who) == ReleasedAll(ledger, queue, who)
      invariant Balanced(l) && Owns(l, queue[i..], who) && l.Keys <= ledger.Keys
      invariant forall q {:trigger HoldsPayload(q, l[q])} :: q in l ==> HoldsPayload(q, l[q])
    {
      OwnsRest(l, queue[i..], who);
      ReleasedIsBalanced(l, queue[i], who);
      assert queue[i..][1..] == queue[i + 1..];
      assert HoldsPayload(queue[i], l[queue[i]]);
      assert queue[i] in l.Keys;
      var error, freed := queue[i].Release();
      l := Released(l, queue[i], who);
      i := i + 1;
    }
  }

  // ------------------------------------------------------------------------------------ whole runs

  /** One line of the ledger. */
  datatype Entry<H> =
    | Issue(p: Payload)
    | Hold(p: Payload, who: Owner<H>)
    | Release(p: Payload, who: Owner<H>)
    | Pass(p: Payload, who: Owner<H>, to: Owner<H>)

  /** Only live payloads are held, released or passed on, and only by somebody who owns a reference. */
  ghost predicate Legal<H>(l: Ledger<H>, e: Entry<H>) {
    match e
    case Issue(p) => p !in l
    case Hold(p, who) => p in l
    case Release(p, who) => p in l && who in l[p].owners
    case Pass(p, who, to) => p in l && who in l[p].owners
  }

  ghost function Entered<H>(l: Ledger<H>, e: Entry<H>): Ledger<H>
    requires Legal(l, e)
  {
    match e
    case Issue(p) => Issued(l, p)
    case Hold(p, who) => Held(l, p, who)
    case Release(p, who) => Released(l, p, who)
    case Pass(p, who, to) => Passed(l, p, who, to)
  }

  ghost predicate LegalRun<H>(entries: seq<Entry<H>>)
    decreases |entries|, 0
  {
    entries == [] || (
      var n := |entries| - 1;
      LegalRun(entries[..n]) && Legal(Run(entries[..n]), entries[n]))
  }

  ghost function Run<H>(entries: seq<Entry<H>>): Ledger<H>
    requires LegalRun(entries)
    decreases |entries|, 1
  {
    if entries == [] then map[] else
    var n := |entries| - 1;
    Entered(Run(entries[..n]), entries[n])
  }

  ghost function Netted<H>(net: multiset<Owner<H>>, e: Entry<H>, p: Payload): multiset<Owner<H>> {
    if e.p != p then net else
    match e
    case Issue(_) => net + multiset{App}
    case Hold(_, who) => net + multiset{who}
    case Release(_, who) => net - multiset{who}
    case Pass(_, who, to) => net - multiset{who} + multiset{to}
  }

  /** Owners by the entries alone: taken on and struck off, whatever became of the payload. */
  ghost function Net<H>(entries: seq<Entry<H>>, p: Payload): multiset<Owner<H>> {
    if entries == [] then multiset{} else
    Netted(Net(entries[..|entries| - 1], p), entries[|entries| - 1], p)
  }

  /** The count has reached the pin at some time. */
  ghost predicate Peaked<H>(entries: seq<Entry<H>>, p: Payload)
    requires LegalRun(entries)
    decreases |entries|
  {
    entries != [] && (Peaked(entries[..|entries| - 1], p) || (p in Run(entries) && Run(entries)[p].count == PINNED))
  }

  /** The account of one payload, as its history demands. */
  ghost predicate Kept<H>(l: Ledger<H>, p: Payload, net: multiset<Owner<H>>, peaked: bool) {
    && (p in l <==> peaked || net != multiset{})
    && (p in l ==> l[p] == Account(if peaked then PINNED else |net|, net))
  }

  lemma {:induction false} EntryKeeps<H>(l: Ledger<H>, e: Entry<H>)
    requires Balanced(l) && Legal(l, e)
    ensures Balanced(Entered(l, e))
  {
    match e
    case Issue(p) =>
    case Hold(p, who) =>
    case Release(p, who) =>
      ReleasedIsBalanced(l, p, who);
    case Pass(p, who, to) =>
      assert l[p].owners == (l[p].owners - multiset{who}) + multiset{who};
  }

  lemma {:induction false} HoldKeeps<H>(l: Ledger<H>, p: Payload, who: Owner<H>, net: multiset<Owner<H>>, peaked: bool)
    requires Balanced(l) && p in l && Kept(l, p, net, peaked)
    ensures var after := Held(l, p, who);
            Kept(after, p, net + multiset{who}, peaked || after[p].count == PINNED)
  {
    assert who in net + multiset{who};
  }

  lemma {:induction false} ReleaseKeeps<H>(l: Ledger<H>, p: Payload, who: Owner<H>, net: multiset<Owner<H>>, peaked: bool)
    requires Balanced(l) && p in l && who in l[p].owners && Kept(l, p, net, peaked)
    ensures var after := Released(l, p, who);
            Kept(after, p, net - multiset{who}, peaked || (p in after && after[p].count == PINNED))
  {
    ReleasedIsBalanced(l, p, who);
    var left := net - multiset{who};
    assert net == left + multiset{who};
    assert left == multiset{} <==> |left| == 0;
  }

  lemma {:induction false} PassKeeps<H>(l: Ledger<H>, p: Payload, who: Owner<H>, to: Owner<H>, net: multiset<Owner<H>>, peaked: bool)
    requires Balanced(l) && p in l && who in l[p].owners && Kept(l, p, net, peaked)
    ensures var after := Passed(l, p, who, to);
            Kept(after, p, net - multiset{who} + multiset{to}, peaked || after[p].count == PINNED)
  {
    assert net == (net - multiset{who}) + multiset{who};
    assert to in net - multiset{who} + multiset{to};
  }

  lemma {:induction false} IssueKeeps<H>(l: Ledger<H>, p: Payload, net: multiset<Owner<H>>, peaked: bool)
    requires p !in l && Kept(l, p, net, peaked)
    ensures !peaked && Kept(Issued(l, p), p, net + multiset{App}, false)
  {
    assert net + multiset{App} == multiset{App};
  }

  lemma {:induction false} OthersKept<H>(l: Ledger<H>, e: Entry<H>, p: Payload)
    requires Legal(l, e) && e.p != p
    ensures p in Entered(l, e) <==> p in l
    ensures p in l ==> Entered(l, e)[p] == l[p]
  {
  }

  lemma {:induction false} KeptOn<H>(l: Ledger<H>, e: Entry<H>, p: Payload, net: multiset<Owner<H>>, peaked: bool)
    requires Balanced(l) && Legal(l, e) && Kept(l, p, net, peaked)
    ensures var after := Entered(l, e);
            Kept(after, p, Netted(net, e, p), peaked || (p in after && after[p].count == PINNED))
  {
    if e.p != p {
      OthersKept(l, e, p);
    } else {
      match e
      case Issue(_) => IssueKeeps(l, p, net, peaked);
      case Hold(_, who) => HoldKeeps(l, p, who, net, peaked);
      case Release(_, who) => ReleaseKeeps(l, p, who, net, peaked);
      case Pass(_, who, to) => PassKeeps(l, p, who, to, net, peaked);
    }
  }

  /** In every run, a payload lives exactly as long as somebody owns a reference to it, with a count of just
      that many; unless its count once reached the pin, when it stays for good. */
  lemma {:induction false} LivesWhileOwned<H>(entries: seq<Entry<H>>, p: Payload)
    requires LegalRun(entries)
    ensures Balanced(Run(entries))
    ensures Kept(Run(entries), p, Net(entries, p), Peaked(entries, p))
  {
    if entries != [] {
      var n := |entries| - 1;
      LivesWhileOwned(entries[..n], p);
      EntryKeeps(Run(entries[..n]), entries[n]);
      KeptOn(Run(entries[..n]), entries[n], p, Net(entries[..n], p), Peaked(entries[..n], p));
    }
  }
}
