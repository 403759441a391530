/** Iteration over a table in memory while its caller removes what has been handed out: every call is a
    move of the walk that `Chains` speaks of. */
module HashTableWalks {
  import opened Chains
  import opened HashTables

  /** What a caller does once an iteration has begun: asks for the next item, or removes the key of the
      item that was handed out as number `which`, counted from zero, if there is one. */
  datatype CallerStep = Ask | Forget(which: nat)

  /** What an iteration has come to: how often it has been asked for an item, and what the table holds. */
  datatype Tally<T, K> = Tally(asked: nat, contents: map<K, T>) {
    function Handed(total: nat): nat {
      if asked < total then asked else total
    }
  }

  /** One step on, `classes` being those of the items in the order the iteration began with. */
  function Counted<T, K>(t: Tally<T, K>, step: CallerStep, classes: seq<K>): Tally<T, K> {
    match step
    case Ask => t.(asked := t.asked + 1)
    case Forget(which) =>
      if which < t.Handed(|classes|) then t.(contents := t.contents - {classes[which]}) else t
  }

  function Tallied<T, K>(t: Tally<T, K>, steps: seq<CallerStep>, n: nat, classes: seq<K>): Tally<T, K>
    requires n <= |steps|
  {
    if n == 0 then t else Counted(Tallied(t, steps, n - 1, classes), steps[n - 1], classes)
  }

  /** How often the first `n` steps ask for an item. */
  function Asks(steps: seq<CallerStep>, n: nat): nat
    requires n <= |steps|
  {
    if n == 0 then 0 else Asks(steps, n - 1) + if steps[n - 1].Ask? then 1 else 0
  }

  /** Step `i` removes class `k`: it names it by the number of an item that has been handed out by then, the first
      having come with the beginning. */
  predicate Forgets<K(==)>(steps: seq<CallerStep>, i: nat, k: K, classes: seq<K>)
    requires i < |steps|
  {
    && steps[i].Forget? && steps[i].which <= Asks(steps, i)
    && steps[i].which < |classes| && classes[steps[i].which] == k
  }

  /** What the steps after a beginning come to: an item has been asked for once more than there were such steps, and
      exactly the classes that a step removed are gone. */
  lemma {:induction false} TalliedIs<T, K>(contents: map<K, T>, steps: seq<CallerStep>, n: nat, classes: seq<K>)
    requires n <= |steps|
    ensures var t := Tallied(Tally(1, contents), steps, n, classes);
            && t.asked == 1 + Asks(steps, n)
            && t.contents.Keys <= contents.Keys
            && (forall k {:trigger k in t.contents} :: k in t.contents ==> t.contents[k] == contents[k])
            && (forall k {:trigger k in contents} :: k in contents ==>
                  (k !in t.contents <==> exists i :: 0 <= i < n && Forgets(steps, i, k, classes)))
  {
    if n > 0 {
      TalliedIs(contents, steps, n - 1, classes);
      var t, t' := Tallied(Tally(1, contents), steps, n - 1, classes), Tallied(Tally(1, contents), steps, n, classes);
      forall k | k in contents ensures k !in t'.contents <==> exists i :: 0 <= i < n && Forgets(steps, i, k, classes) {
        assert k !in t'.contents <==> k !in t.contents || Forgets(steps, n - 1, k, classes);
        if k !in t.contents {
          var i :| 0 <= i < n - 1 && Forgets(steps, i, k, classes);
        }
      }
    }
  }

  /** `history` holds what each of the first steps, from none to all, comes to. */
  ghost predicate Recounts<T, K>(history: seq<Tally<T, K>>, steps: seq<CallerStep>, classes: seq<K>) {
    && |history| == |steps| + 1
    && forall i {:trigger Recounted(history, steps, i, classes)} :: 0 <= i < |steps| ==>
         Recounted(history, steps, i, classes)
  }

  ghost predicate Recounted<T, K>(history: seq<Tally<T, K>>, steps: seq<CallerStep>, i: nat, classes: seq<K>)
    requires i < |steps| && |history| == |steps| + 1
  {
    history[i + 1] == Counted(history[i], steps[i], classes)
  }

  lemma {:induction false} History<T, K>(t: Tally<T, K>, steps: seq<CallerStep>, classes: seq<K>)
    returns (history: seq<Tally<T, K>>)
    ensures Recounts(history, steps, classes)
    ensures history[0] == t && history[|steps|] == Tallied(t, steps, |steps|, classes)
  {
    history := seq(|steps| + 1, i requires 0 <= i <= |steps| => Tallied(t, steps, i, classes));
  }

  lemma {:induction false} LeadsOn<N>(w: Walk<N>, moves: seq<Move>, end: Walk<N>, move: Move)
    requires Leads(w, moves, end) && Allowed(end, move)
    ensures Leads(w, moves + [move], Moved(end, move))
    ensures Takes(moves + [move]) == Takes(moves) + if move == Take then 1 else 0
    decreases |moves|
  {
    if moves == [] {
      assert [move][1..] == [] && moves + [move] == [move];
    } else {
      assert (moves + [move])[1..] == moves[1..] + [move];
      LeadsOn(Moved(w, moves[0]), moves[1..], end, move);
    }
  }

  /** A walk and how many items have been asked for on it. */
  datatype Point<N> = Point(walk: Walk<N>, taken: nat)

  /** The moves so far, and the points before, between and after them. */
  datatype Trail<N> = Trail(points: seq<Point<N>>, moves: seq<Move>)

  ghost predicate PointAt<N>(t: Trail<N>, i: nat)
    requires i < |t.moves| && |t.points| == |t.moves| + 1
  {
    && Allowed(t.points[i].walk, t.moves[i])
    && t.points[i + 1] == Point(Moved(t.points[i].walk, t.moves[i]),
                                t.points[i].taken + if t.moves[i] == Take then 1 else 0)
  }

  ghost predicate LeadsTo<N>(t: Trail<N>, start: Walk<N>, here: Point<N>) {
    && |t.points| == |t.moves| + 1 && t.points[0] == Point(start, 0) && t.points[|t.moves|] == here
    && forall i {:trigger PointAt(t, i)} :: 0 <= i < |t.moves| ==> PointAt(t, i)
  }

  lemma {:induction false} TrailLeads<N>(t: Trail<N>, start: Walk<N>, here: Point<N>, k: nat)
    requires LeadsTo(t, start, here) && k <= |t.moves|
    ensures Leads(start, t.moves[..k], t.points[k].walk) && Takes(t.moves[..k]) == t.points[k].taken
  {
    if k > 0 {
      TrailLeads(t, start, here, k - 1);
      assert PointAt(t, k - 1);
      assert t.moves[..k] == t.moves[..k - 1] + [t.moves[k - 1]];
      LeadsOn(start, t.moves[..k - 1], t.points[k - 1].walk, t.moves[k - 1]);
    }
  }

  lemma {:induction false} TrailOn<N>(t: Trail<N>, start: Walk<N>, here: Point<N>, move: Move) returns (t': Trail<N>)
    requires LeadsTo(t, start, here) && Allowed(here.walk, move)
    ensures LeadsTo(t', start, Point(Moved(here.walk, move), here.taken + if move == Take then 1 else 0))
    ensures t'.moves == t.moves + [move]
  {
    var next := Point(Moved(here.walk, move), here.taken + if move == Take then 1 else 0);
    t' := Trail(t.points + [next], t.moves + [move]);
    forall i | 0 <= i < |t'.moves| ensures PointAt(t', i) {
      assert i < |t.moves| ==> PointAt(t, i);
    }
  }

  /** The classes on record, in the order of iteration. */
  ghost function Classes<T, K(!new)>(table: HashTable<T, K>, m: Model<T, K>): (classes: seq<K>)
    requires table.Sound(m)
    ensures |classes| == |Flat(m.chains)|
    ensures forall j {:trigger classes[j]} :: 0 <= j < |classes| ==>
              Flat(m.chains)[j] in m.cells && classes[j] == table.Class(m.cells[Flat(m.chains)[j]].item)
  {
    table.OrderIsContents(m);
    seq(|Flat(m.chains)|, j requires 0 <= j < |Flat(m.chains)| => table.Class(m.cells[Flat(m.chains)[j]].item))
  }

  /** Nodes that are left hold what they held. */
  ghost predicate Kept<T, K>(m: Model<T, K>, m0: Model<T, K>) {
    forall o {:trigger m.cells[o]} {:trigger o in m0.cells} ::
      o in m.cells ==> o in m0.cells && m.cells[o].item == m0.cells[o].item
  }

  /** The keys are those of the items in the nodes. */
  ghost predicate Keyed<T, K(!new)>(table: HashTable<T, K>, keys: seq<K>, nodes: seq<HashNode<T>>, m0: Model<T, K>) {
    && |keys| == |nodes|
    && forall j {:trigger keys[j]} :: 0 <= j < |keys| ==>
         nodes[j] in m0.cells && keys[j] == table.keyOf(m0.cells[nodes[j]].item)
  }

  /** The key of the node at the head, if there is one. */
  ghost function HeadKey<T, K(!new)>(table: HashTable<T, K>, m: Model<T, K>, nodes: seq<HashNode<T>>): seq<K> {
    if nodes == [] || nodes[0] !in m.cells then [] else [table.keyOf(m.cells[nodes[0]].item)]
  }

  /** An iteration that began over the memory `m0` has got to the memory `m`: as the walk `w`, by the
      trail `trail`, with `keys` those of the items handed out and `t` what it has come to. */
  ghost predicate Progress<T, K(!new)>(table: HashTable<T, K>, m0: Model<T, K>, m: Model<T, K>, t: Tally<T, K>,
                                       w: Walk<HashNode<T>>, trail: Trail<HashNode<T>>, keys: seq<K>) {
    && w.order == Flat(m.chains) && LeadsTo(trail, Walk(Flat(m0.chains), [], Flat(m0.chains)), Point(w, t.asked))
    && m.contents == t.contents
    && Kept(m, m0) && Keyed(table, keys, w.returned, m0)
  }

  lemma {:induction false} ProgressKeeps<T, K(!new)>(table: HashTable<T, K>, m0: Model<T, K>, m: Model<T, K>,
                                                     t: Tally<T, K>,
                                                     w: Walk<HashNode<T>>, trail: Trail<HashNode<T>>, keys: seq<K>)
    requires table.Sound(m0) && Progress(table, m0, m, t, w, trail, keys)
    ensures OnTheWay(w, Flat(m0.chains))
    ensures |w.returned| == t.Handed(|Flat(m0.chains)|)
    ensures w.ahead == [] <==> t.asked >= |Flat(m0.chains)|
  {
    var all := Flat(m0.chains);
    table.OrderIsContents(m0);
    assert [] + all == all;
    var n := |trail.moves|;
    TrailLeads(trail, Walk(all, [], all), Point(w, t.asked), n);
    assert trail.moves[..n] == trail.moves;
    WalkCovers(Walk(all, [], all), trail.moves, w, all);
    WalkEnds(all, trail.moves, w);
  }

  lemma {:induction false} Begun<T, K(!new)>(table: HashTable<T, K>, m: Model<T, K>) returns (trail: Trail<HashNode<T>>)
    requires table.Sound(m)
    ensures var all := Flat(m.chains);
            Progress(table, m, m, Tally(1, m.contents), Moved(Walk(all, [], all), Take), trail, HeadKey(table, m, all))
  {
    table.OrderIsContents(m);
    var w := Walk(Flat(m.chains), [], Flat(m.chains));
    trail := TrailOn(Trail([Point(w, 0)], []), w, Point(w, 0), Take);
  }

  lemma {:induction false} KeyedMore<T, K(!new)>(table: HashTable<T, K>, keys: seq<K>, nodes: seq<HashNode<T>>,
                                                  n: HashNode<T>, m0: Model<T, K>, m: Model<T, K>)
    requires Keyed(table, keys, nodes, m0) && Kept(m, m0) && n in m.cells
    ensures Keyed(table, keys + [table.keyOf(m.cells[n].item)], nodes + [n], m0)
  {
  }

  lemma {:induction false} Asked<T, K(!new)>(table: HashTable<T, K>, m0: Model<T, K>, m: Model<T, K>, t: Tally<T, K>,
                                             w: Walk<HashNode<T>>, trail: Trail<HashNode<T>>, keys: seq<K>)
    returns (trail': Trail<HashNode<T>>)
    requires table.Sound(m0) && table.Sound(m) && Progress(table, m0, m, t, w, trail, keys)
    ensures Progress(table, m0, m, Counted(t, Ask, Classes(table, m0)), Moved(w, Take), trail',
                     keys + HeadKey(table, m, w.ahead))
  {
    ProgressKeeps(table, m0, m, t, w, trail, keys);
    trail' := TrailOn(trail, Walk(Flat(m0.chains), [], Flat(m0.chains)), Point(w, t.asked), Take);
    if w.ahead != [] {
      SuffixMember(w.ahead, w.order, 0);
      assert w.ahead[0] in m.cells by { table.OrderIsContents(m); }
      KeyedMore(table, keys, w.returned, w.ahead[0], m0, m);
    } else {
      assert keys + [] == keys;
    }
  }

  /** The one node of a key's class is the one that was handed out with it. */
  lemma {:induction false} SameNode<T, K(!new)>(table: HashTable<T, K>, m0: Model<T, K>, m: Model<T, K>, d: HashNode<T>,
                                                n: HashNode<T>, key: K)
    requires table.Sound(m0) && table.Sound(m) && Kept(m, m0)
    requires table.canon(key) in m.nodes && d == m.nodes[table.canon(key)]
    requires d in Flat(m0.chains) && n in Flat(m0.chains)
    requires n in m0.cells && key == table.keyOf(m0.cells[n].item)
    ensures d == n
  {
    assert table.Recorded(table.canon(key), m);
    table.OrderIsContents(m0);
  }

  lemma {:induction false} KeptTwice<T, K(!new)>(m0: Model<T, K>, m: Model<T, K>, m': Model<T, K>)
    requires Kept(m, m0) && Kept(m', m)
    ensures Kept(m', m0)
  {
  }

  /** A removal by a key that was handed out takes the node that was handed out with it. */
  lemma {:induction false} Forgot<T, K(!new)>(table: HashTable<T, K>, m0: Model<T, K>, m: Model<T, K>, t: Tally<T, K>,
                                              w: Walk<HashNode<T>>, trail: Trail<HashNode<T>>, keys: seq<K>, which: nat,
                                              m': Model<T, K>, removed: bool, p: nat)
    returns (w': Walk<HashNode<T>>, trail': Trail<HashNode<T>>)
    requires table.Sound(m0) && table.Sound(m) && which < |keys|
    requires Progress(table, m0, m, t, w, trail, keys)
    requires Kept(m', m) && m'.contents == m.contents - {table.canon(keys[which])}
    requires !removed ==> Flat(m'.chains) == Flat(m.chains)
    requires removed ==> (
               && p < |Flat(m.chains)| && table.canon(keys[which]) in m.nodes
               && Flat(m.chains)[p] == m.nodes[table.canon(keys[which])]
               && Flat(m'.chains) == Without(Flat(m.chains), p))
    ensures Progress(table, m0, m', Counted(t, Forget(which), Classes(table, m0)), w', trail', keys)
    ensures w'.ahead == w.ahead && Suffix(w.ahead, w'.order)
  {
    var all := Flat(m0.chains);
    ProgressKeeps(table, m0, m, t, w, trail, keys);
    assert Classes(table, m0)[which] == table.canon(keys[which]);
    KeptTwice(m0, m, m');
    w', trail' := w, trail;
    if removed {
      assert w.order[p] in all;
      SameNode(table, m0, m, w.order[p], w.returned[which], keys[which]);
      w' := Moved(w, Drop(p));
      trail' := TrailOn(trail, Walk(all, [], all), Point(w, t.asked), Drop(p));
      MoveKeeps(w, Drop(p), all);
    }
  }

  /** A removal by a number nothing was handed out under changes nothing. */
  lemma {:induction false} ForgotNone<T, K(!new)>(table: HashTable<T, K>, m0: Model<T, K>, m: Model<T, K>,
                                                  t: Tally<T, K>,
                                                  w: Walk<HashNode<T>>, trail: Trail<HashNode<T>>,
                                                  keys: seq<K>, which: nat)
    requires table.Sound(m0) && which >= |keys| && Progress(table, m0, m, t, w, trail, keys)
    ensures Counted(t, Forget(which), Classes(table, m0)) == t
  {
    ProgressKeeps(table, m0, m, t, w, trail, keys);
  }

  lemma {:induction false} NodeHolds<T, K(!new)>(table: HashTable<T, K>, n: HashNode<T>)
    requires table.Valid() && n in table.Order()
    ensures n in table.model.cells && table.model.cells[n].item == n.item
  {
    var m := table.model;
    assert table.Sound(m);
    table.OrderIsContents(m);
    assert table.Holds(n, m.cells[n]);
  }

  /** The key of what the iterator hands out. */
  function KeyOf<T, K(!new)>(table: HashTable<T, K>, r: Ref<T>): K
    requires r != Null
    reads if r.Place? then {r.node} else {}
  {
    match r
    case Pointer(item) => table.keyOf(item)
    case Place(n) => table.keyOf(n.item)
  }

  method First<T, K(!new)>(table: HashTable<T, K>, iter: HashIterator<T, K>) returns (keys: seq<K>)
    requires table.Valid() && iter !in table.Repr
    modifies iter
    ensures iter.table == table && table.Ahead(iter.node, iter.rest)
    ensures iter.rest == Moved(Walk(table.Order(), [], table.Order()), Take).ahead
    ensures keys == HeadKey(table, table.model, table.Order())
  {
    var r := table.Begin(iter);
    if r == Null {
      keys := [];
    } else {
      NodeHolds(table, table.Order()[0]);
      keys := [KeyOf(table, r)];
    }
  }

  method More<T, K(!new)>(table: HashTable<T, K>, iter: HashIterator<T, K>) returns (keys: seq<K>)
    requires table.Valid() && iter !in table.Repr
    requires iter.table == table && table.Ahead(iter.node, iter.rest)
    modifies iter
    ensures iter.table == table && table.Ahead(iter.node, iter.rest)
    ensures iter.rest == if old(iter.rest) == [] then [] else old(iter.rest)[1..]
    ensures keys == HeadKey(table, table.model, old(iter.rest))
  {
    if iter.rest != [] {
      SuffixMember(iter.rest, table.Order(), 0);
      NodeHolds(table, iter.rest[0]);
    }
    var r := iter.Next();
    keys := if r == Null then [] else [KeyOf(table, r)];
  }

  /** The iterator in memory stands where the walk does. */
  ghost predicate Stands<T, K(!new)>(table: HashTable<T, K>, iter: HashIterator<T, K>, w: Walk<HashNode<T>>)
    reads table, iter
  {
    iter.table == table && table.Ahead(iter.node, iter.rest) && iter.rest == w.ahead
  }

  method AskOne<T, K(==, !new)>(table: HashTable<T, K>, iter: HashIterator<T, K>, ghost m0: Model<T, K>,
                                ghost t: Tally<T, K>,
                                ghost w: Walk<HashNode<T>>, ghost trail: Trail<HashNode<T>>, keys: seq<K>)
    returns (keys': seq<K>, ghost trail': Trail<HashNode<T>>)
    requires table.Valid() && iter !in table.Repr && Stands(table, iter, w)
    requires table.Sound(m0) && Progress(table, m0, table.model, t, w, trail, keys)
    modifies iter
    ensures Stands(table, iter, Moved(w, Take))
    ensures Progress(table, m0, table.model, Counted(t, Ask, Classes(table, m0)), Moved(w, Take), trail', keys')
  {
    trail' := Asked(table, m0, table.model, t, w, trail, keys);
    var more := More(table, iter);
    keys' := keys + more;
  }

  method ForgetOne<T, K(==, !new)>(table: HashTable<T, K>, iter: HashIterator<T, K>, ghost m0: Model<T, K>,
                                   ghost t: Tally<T, K>,
                                   ghost w: Walk<HashNode<T>>, ghost trail: Trail<HashNode<T>>,
                                   keys: seq<K>, which: nat)
    returns (ghost w': Walk<HashNode<T>>, ghost trail': Trail<HashNode<T>>)
    requires table.Valid() && iter !in table.Repr && Stands(table, iter, w)
    requires table.Sound(m0) && Progress(table, m0, table.model, t, w, trail, keys)
    modifies table.Repr
    ensures table.Valid() && unchanged(table`Repr) && Stands(table, iter, w')
    ensures Progress(table, m0, table.model, Counted(t, Forget(which), Classes(table, m0)), w', trail', keys)
  {
    if which >= |keys| {
      ForgotNone(table, m0, table.model, t, w, trail, keys, which);
      return w, trail;
    }
    ghost var m := table.model;
    var removed, p := table.Remove(keys[which]);
    w', trail' := Forgot(table, m0, m, t, w, trail, keys, which, table.model, removed == 1, p);
  }

  method Start<T, K(!new)>(table: HashTable<T, K>, iter: HashIterator<T, K>)
    returns (keys: seq<K>, ghost w: Walk<HashNode<T>>, ghost trail: Trail<HashNode<T>>)
    requires table.Valid() && iter !in table.Repr
    modifies iter
    ensures Stands(table, iter, w)
    ensures Progress(table, table.model, table.model, Tally(1, table.Contents()), w, trail, keys)
  {
    trail := Begun(table, table.model);
    w := Moved(Walk(table.Order(), [], table.Order()), Take);
    keys := First(table, iter);
  }

  method StepOne<T, K(==, !new)>(table: HashTable<T, K>, iter: HashIterator<T, K>, ghost m0: Model<T, K>,
                                 ghost t: Tally<T, K>,
                                 ghost w: Walk<HashNode<T>>, ghost trail: Trail<HashNode<T>>,
                                 keys: seq<K>, step: CallerStep)
    returns (keys': seq<K>, ghost w': Walk<HashNode<T>>, ghost trail': Trail<HashNode<T>>)
    requires table.Valid() && iter !in table.Repr && Stands(table, iter, w)
    requires table.Sound(m0) && Progress(table, m0, table.model, t, w, trail, keys)
    modifies table.Repr, iter
    ensures table.Valid() && unchanged(table`Repr) && Stands(table, iter, w')
    ensures Progress(table, m0, table.model, Counted(t, step, Classes(table, m0)), w', trail', keys')
  {
    keys', w' := keys, Moved(w, Take);
    match step {
      case Ask =>
        keys', trail' := AskOne(table, iter, m0, t, w, trail, keys);
      case Forget(which) =>
        w', trail' := ForgetOne(table, iter, m0, t, w, trail, keys, which);
    }
  }

  /** Whatever steps a caller takes after beginning, each call on the table and its iterator is the move of a
      walk. */
  method Follow<T, K(==, !new)>(table: HashTable<T, K>, iter: HashIterator<T, K>, steps: seq<CallerStep>, n: nat,
                                ghost history: seq<Tally<T, K>>)
    returns (keys: seq<K>, ghost w: Walk<HashNode<T>>, ghost trail: Trail<HashNode<T>>)
    requires table.Valid() && iter !in table.Repr && n <= |steps|
    requires Recounts(history, steps, Classes(table, table.model)) && history[0] == Tally(1, table.Contents())
    modifies table.Repr, iter
    ensures table.Valid() && unchanged(table`Repr) && Stands(table, iter, w)
    ensures Progress(table, old(table.model), table.model, history[n], w, trail, keys)
  {
    if n == 0 {
      keys, w, trail := Start(table, iter);
    } else {
      ghost var m0 := table.model;
      assert Recounted(history, steps, n - 1, Classes(table, m0));
      keys, w, trail := Follow(table, iter, steps, n - 1, history);
      keys, w, trail := StepOne(table, iter, m0, history[n - 1], w, trail, keys, steps[n - 1]);
    }
  }

  /** Iterating over a table while removing any of the items already handed out, at any time and in any
      order: the items handed out are those there at the start, in order, each once; the iterator is at its
      end exactly when it has been asked for all of them; and the table holds what it held without what
      was removed. */
  method Iterate<T, K(==, !new)>(table: HashTable<T, K>, iter: HashIterator<T, K>, steps: seq<CallerStep>)
    returns (keys: seq<K>, ghost returned: seq<HashNode<T>>)
    requires table.Valid() && iter !in table.Repr
    modifies table.Repr, iter
    ensures table.Valid() && unchanged(table`Repr) && iter.table == table && table.Ahead(iter.node, iter.rest)
    ensures var t := Tallied(Tally(1, old(table.Contents())), steps, |steps|, Classes(table, old(table.model)));
            && table.Contents() == t.contents
            && |returned| == t.Handed(|old(table.Order())|)
            && (iter.rest == [] <==> t.asked >= |old(table.Order())|)
    ensures returned + iter.rest == old(table.Order())
    ensures Keyed(table, keys, returned, old(table.model))
  {
    ghost var m0 := table.model;
    ghost var history := History(Tally(1, m0.contents), steps, Classes(table, m0));
    ghost var w, trail;
    keys, w, trail := Follow(table, iter, steps, |steps|, history);
    ProgressKeeps(table, m0, table.model, history[|steps|], w, trail, keys);
    returned := w.returned;
  }
}
