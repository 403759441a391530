/** The chained hash table: an array of singly linked chains changed in place, and the iterator that is
    always one node ahead. */
module HashTables {
  import opened Chains

  /** Slots allocated by the first assignment; the table never grows. */
  const SLOTS: nat := 32

  /** `hash_node_t`, with the item stored behind it. */
  class HashNode<T> {
    var next: HashNode?<T>
    const code: nat
    var item: T

    constructor (next: HashNode?<T>, code: nat, item: T)
      ensures this.next == next && this.code == code && this.item == item
    {
      this.next, this.code, this.item := next, code, item;
    }
  }

  /** What the functions return as a `void *`: nothing, the stored pointer, or the place of the copy. */
  datatype Ref<T> = Null | Pointer(item: T) | Place(node: HashNode<T>)

  /** How an assignment went. */
  datatype Assignment = Failed | Replaced | Inserted

  /** What a node's memory holds. */
  datatype Cell<T> = Cell(next: HashNode?<T>, item: T)

  /** What the table stands for, `contents`: the item held for each class of keys. Behind it, the image of
      its memory: the heads of the slots and the cells of the nodes; and how the two go together: the
      nodes of each slot from the head, and the node of each class. */
  datatype Model<T, K> = Model(
    contents: map<K, T>,
    heads: seq<HashNode?<T>>,
    cells: map<HashNode<T>, Cell<T>>,
    chains: seq<seq<HashNode<T>>>,
    nodes: map<K, HashNode<T>>)

  /** What the caller's callbacks owe the table: `comp` is zero exactly on keys of one class, `canon`
      picks the representative of each class, and `hash` is constant on classes. */
  ghost predicate Coherent<K(!new)>(hash: K -> nat, comp: (K, K) -> int, canon: K -> K) {
    && (forall a, b {:trigger comp(a, b)} :: comp(a, b) == 0 <==> canon(a) == canon(b))
    && (forall a {:trigger canon(a)} :: canon(canon(a)) == canon(a) && hash(canon(a)) == hash(a))
  }

  /** `hash_table_t`. The key of an item is the part of it the callbacks look at. */
  class HashTable<T, K(!new)> {
    var top: array?<HashNode?<T>>
    var topSize: nat
    var itemCount: nat
    /** The callbacks are set; they are from initialisation until `hash_table_deinit` clears the table. */
    var ready: bool
    const pointers: bool
    const hash: K -> nat
    const comp: (K, K) -> int
    const keyOf: T -> K

    ghost const canon: K -> K
    ghost var model: Model<T, K>
    ghost var Repr: set<object>

    ghost function Class(item: T): K {
      canon(keyOf(item))
    }

    // ---------------------------------------------------------------------------------- the image

    /** A node of slot `s` belongs there and is the one node of its item's class. */
    ghost predicate Placed(n: HashNode<T>, s: nat, m: Model<T, K>) {
      && n.code % SLOTS == s
      && n in m.cells && n.code == hash(keyOf(m.cells[n].item))
      && Class(m.cells[n].item) in m.nodes && m.nodes[Class(m.cells[n].item)] == n
    }

    /** Node `i` of a chain points to the next one, the last one to nothing. */
    ghost predicate Follows(c: seq<HashNode<T>>, i: nat, m: Model<T, K>)
      requires i < |c|
    {
      c[i] in m.cells && m.cells[c[i]].next == if i + 1 < |c| then c[i + 1] else null
    }

    /** A chain visits its nodes once each, in the order the pointers lead through them, and then ends. */
    ghost predicate Chained(head: HashNode?<T>, c: seq<HashNode<T>>, s: nat, m: Model<T, K>) {
      && head == (if c == [] then null else c[0])
      && Distinct(c)
      && (forall n {:trigger Placed(n, s, m)} :: n in c ==> Placed(n, s, m))
      && (forall i {:trigger Follows(c, i, m)} :: 0 <= i < |c| ==> Follows(c, i, m))
    }

    /** A class on record has a node in the chain of its slot, holding its item. */
    ghost predicate Recorded(k: K, m: Model<T, K>)
      requires k in m.nodes
    {
      && hash(k) % SLOTS < |m.chains|
      && m.nodes[k] in m.chains[hash(k) % SLOTS]
      && m.nodes[k] in m.cells && Class(m.cells[m.nodes[k]].item) == k
      && k in m.contents && m.contents[k] == m.cells[m.nodes[k]].item
    }

    ghost predicate Sound(m: Model<T, K>) {
      && |m.heads| == |m.chains|
      && (forall s {:trigger Chained(m.heads[s], m.chains[s], s, m)} :: 0 <= s < |m.chains| ==> Chained(m.heads[s], m.chains[s], s, m))
      && (forall k {:trigger Recorded(k, m)} :: k in m.nodes ==> Recorded(k, m))
      && m.contents.Keys == m.nodes.Keys
    }

    /** A new node goes to the head of its chain. */
    ghost function Linking(m: Model<T, K>, n: HashNode<T>, item: T, slot: nat): Model<T, K>
      requires slot < |m.chains| && slot < |m.heads|
    {
      var k := Class(item);
      Model(m.contents[k := item], m.heads[slot := n], m.cells[n := Cell(m.heads[slot], item)],
            m.chains[slot := [n] + m.chains[slot]], m.nodes[k := n])
    }

    /** A new item goes into the node of an equal key. */
    ghost function Overwriting(m: Model<T, K>, n: HashNode<T>, item: T): Model<T, K>
      requires n in m.cells
    {
      m.(contents := m.contents[Class(item) := item], cells := m.cells[n := m.cells[n].(item := item)])
    }

    /** The pointer to a node, in its slot or in the node before it, is set to what follows the node. */
    ghost function Unlinking(m: Model<T, K>, slot: nat, i: nat, k: K): Model<T, K>
      requires slot < |m.chains| && slot < |m.heads| && i < |m.chains[slot]|
      requires forall n :: n in m.chains[slot] ==> n in m.cells
    {
      var c := m.chains[slot];
      var after := m.cells[c[i]].next;
      Model(m.contents - {k},
            if i == 0 then m.heads[slot := after] else m.heads,
            (if i == 0 then m.cells else m.cells[c[i - 1] := m.cells[c[i - 1]].(next := after)]) - {c[i]},
            m.chains[slot := Without(c, i)], m.nodes - {k})
    }

    lemma {:induction false} Node(m: Model<T, K>, s: nat, n: HashNode<T>)
      requires Sound(m) && s < |m.chains| && n in m.chains[s]
      ensures Placed(n, s, m)
    {
      assert Chained(m.heads[s], m.chains[s], s, m);
      assert Placed(n, s, m);
    }

    lemma {:induction false} LinkingIsSound(m: Model<T, K>, n: HashNode<T>, item: T, slot: nat)
      requires Coherent(hash, comp, canon) && Sound(m)
      requires slot < |m.chains| && slot == n.code % SLOTS && n.code == hash(keyOf(item))
      requires n !in m.cells && Class(item) !in m.nodes
      ensures Sound(Linking(m, n, item, slot))
    {
      var m' := Linking(m, n, item, slot);
      forall s | 0 <= s < |m'.chains| ensures Chained(m'.heads[s], m'.chains[s], s, m') {
        var c, c' := m.chains[s], m'.chains[s];
        assert Chained(m.heads[s], c, s, m);
        forall o | o in c ensures o != n && Placed(o, s, m') {
          assert Placed(o, s, m);
        }
        forall o | o in c' ensures Placed(o, s, m') {
        }
        assert s == slot ==> c'[1..] == c;
        forall i | 0 <= i < |c'| ensures Follows(c', i, m') {
          if s != slot {
            assert Follows(c, i, m);
          } else if i > 0 {
            assert Follows(c, i - 1, m);
          }
        }
      }
      forall k | k in m'.nodes ensures Recorded(k, m') {
        assert k != Class(item) ==> Recorded(k, m);
      }
    }

    lemma {:induction false} OverwritingIsSound(m: Model<T, K>, n: HashNode<T>, item: T)
      requires Coherent(hash, comp, canon) && Sound(m)
      requires n in m.cells && n.code == hash(keyOf(item))
      requires Class(item) in m.nodes && m.nodes[Class(item)] == n
      ensures Sound(Overwriting(m, n, item))
    {
      var m' := Overwriting(m, n, item);
      assert Recorded(Class(item), m);
      forall s | 0 <= s < |m'.chains| ensures Chained(m'.heads[s], m'.chains[s], s, m') {
        var c := m.chains[s];
        assert Chained(m.heads[s], c, s, m);
        forall o | o in c ensures Placed(o, s, m') {
          assert Placed(o, s, m);
        }
        forall i | 0 <= i < |c| ensures Follows(c, i, m') {
          assert Follows(c, i, m);
        }
      }
      forall k | k in m'.nodes ensures Recorded(k, m') {
        assert Recorded(k, m);
      }
    }

    /** What unlinking leaves of one chain: its own stretch without the node, the others as they were. */
    lemma {:induction false} UnlinkedChain(m: Model<T, K>, slot: nat, i: nat, k: K, s: nat)
      requires Coherent(hash, comp, canon) && Sound(m)
      requires slot < |m.chains| && i < |m.chains[slot]| && s < |m.chains|
      requires forall n :: n in m.chains[slot] ==> n in m.cells
      requires k in m.nodes && m.nodes[k] == m.chains[slot][i]
      ensures var m' := Unlinking(m, slot, i, k); Chained(m'.heads[s], m'.chains[s], s, m')
    {
      var m' := Unlinking(m, slot, i, k);
      var c, c', d := m.chains[s], m'.chains[s], m.chains[slot][i];
      assert Chained(m.heads[s], c, s, m) && Recorded(k, m);
      assert Placed(d, slot, m) by { Node(m, slot, d); }
      if s == slot {
        WithoutMembers(c, i);
        assert Follows(c, i, m);
      }
      forall o | o in c' ensures Placed(o, s, m') {
        assert Placed(o, s, m);
      }
      if i > 0 {
        Node(m, slot, m.chains[slot][i - 1]);
      }
      forall j | 0 <= j < |c'| ensures Follows(c', j, m') {
        if s == slot && i <= j {
          DistinctApart(c, i, j + 1);
          assert i > 0 ==> c[i - 1] != c[j + 1] by { if i > 0 { DistinctApart(c, i - 1, j + 1); } }
          assert Follows(c, j + 1, m);
        } else {
          assert Follows(c, j, m);
          assert Placed(c[j], s, m);
          if s == slot && j + 1 < i {
            DistinctApart(c, j, i - 1);
          }
        }
      }
    }

    lemma {:induction false} UnlinkingIsSound(m: Model<T, K>, slot: nat, i: nat, k: K)
      requires Coherent(hash, comp, canon) && Sound(m)
      requires slot < |m.chains| && i < |m.chains[slot]|
      requires k in m.nodes && m.nodes[k] == m.chains[slot][i]
      ensures forall n :: n in m.chains[slot] ==> n in m.cells
      ensures Sound(Unlinking(m, slot, i, k))
    {
      forall n | n in m.chains[slot] ensures n in m.cells {
        Node(m, slot, n);
      }
      var m' := Unlinking(m, slot, i, k);
      forall s | 0 <= s < |m'.chains| ensures Chained(m'.heads[s], m'.chains[s], s, m') {
        UnlinkedChain(m, slot, i, k, s);
      }
      forall j | j in m'.nodes ensures Recorded(j, m') {
        UnlinkedRecord(m, slot, i, k, j);
      }
    }

    lemma {:induction false} UnlinkedRecord(m: Model<T, K>, slot: nat, i: nat, k: K, j: K)
      requires Coherent(hash, comp, canon) && Sound(m)
      requires slot < |m.chains| && i < |m.chains[slot]|
      requires forall n :: n in m.chains[slot] ==> n in m.cells
      requires k in m.nodes && m.nodes[k] == m.chains[slot][i]
      requires j in m.nodes && j != k
      ensures Recorded(j, Unlinking(m, slot, i, k))
    {
      var c := m.chains[slot];
      assert Recorded(k, m) && Recorded(j, m) && Chained(m.heads[slot], c, slot, m);
      WithoutMembers(c, i);
    }

    /** A class with no node in the chain of its slot is not on record. */
    lemma {:induction false} Absent(m: Model<T, K>, key: K, c: seq<HashNode<T>>)
      requires Coherent(hash, comp, canon) && Sound(m)
      requires hash(key) % SLOTS < |m.chains| && c == m.chains[hash(key) % SLOTS]
      requires forall j :: 0 <= j < |c| ==> c[j] in m.cells && Class(m.cells[c[j]].item) != canon(key)
      ensures canon(key) !in m.nodes && canon(key) !in m.contents
    {
      forall k | k in m.nodes ensures k != canon(key) {
        assert Recorded(k, m);
      }
    }

    // ---------------------------------------------------------------------------------- what is on record

    /** No node is met twice. */
    lemma {:induction false} OrderDistinct(m: Model<T, K>, s: nat)
      requires Sound(m) && s <= |m.chains|
      ensures Distinct(FlatFrom(m.chains, s))
      decreases |m.chains| - s
    {
      if s < |m.chains| {
        OrderDistinct(m, s + 1);
        assert Chained(m.heads[s], m.chains[s], s, m);
        forall n | n in m.chains[s] ensures n !in FlatFrom(m.chains, s + 1) {
          assert Placed(n, s, m);
          if n in FlatFrom(m.chains, s + 1) {
            var t := OrderedInChain(m.chains, s + 1, n);
            Node(m, t, n);
          }
        }
        DistinctJoin(m.chains[s], FlatFrom(m.chains, s + 1));
      }
    }

    /** The order meets the node of each class on record and no other: as a map from classes to items, the
        nodes met are the contents. */
    lemma {:induction false} OrderIsContents(m: Model<T, K>)
      requires Sound(m)
      ensures Distinct(Flat(m.chains))
      ensures forall k :: k in m.contents ==> (
                && k in m.nodes && m.nodes[k] in Flat(m.chains)
                && m.nodes[k] in m.cells && Class(m.cells[m.nodes[k]].item) == k
                && m.contents[k] == m.cells[m.nodes[k]].item)
      ensures forall n :: n in Flat(m.chains) ==> (
                && n in m.cells && Class(m.cells[n].item) in m.contents
                && m.nodes[Class(m.cells[n].item)] == n)
    {
      OrderDistinct(m, 0);
      forall k | k in m.contents ensures
          && k in m.nodes && m.nodes[k] in Flat(m.chains)
          && m.nodes[k] in m.cells && Class(m.cells[m.nodes[k]].item) == k
          && m.contents[k] == m.cells[m.nodes[k]].item
      {
        assert k in m.contents.Keys;
        assert Recorded(k, m);
        InOrder(m.chains, 0, hash(k) % SLOTS, m.nodes[k]);
      }
      forall n | n in Flat(m.chains) ensures
          && n in m.cells && Class(m.cells[n].item) in m.contents
          && m.nodes[Class(m.cells[n].item)] == n
      {
        var s := OrderedInChain(m.chains, 0, n);
        Node(m, s, n);
        assert Class(m.cells[n].item) in m.nodes.Keys;
      }
    }

    /** The nodes of lower slots come first, then those of slot `s` and the higher ones; a node's slot is what its
        code leaves over when divided by 32. */
    lemma {:induction false} OrderBySlot(m: Model<T, K>, s: nat)
      requires Sound(m) && s <= |m.chains|
      ensures Flat(m.chains) == Before(m.chains, s) + FlatFrom(m.chains, s)
      ensures forall n :: n in Before(m.chains, s) ==> n.code % 32 < s
      ensures forall n :: n in FlatFrom(m.chains, s) ==> s <= n.code % 32 < |m.chains|
    {
      FlatSplit(m.chains, s);
      forall n | n in FlatFrom(m.chains, s) ensures s <= n.code % 32 < |m.chains| {
        var t := OrderedInChain(m.chains, s, n);
        Node(m, t, n);
      }
      LowerSlots(m, s);
    }

    lemma {:induction false} LowerSlots(m: Model<T, K>, s: nat)
      requires Sound(m) && s <= |m.chains|
      ensures forall n :: n in Before(m.chains, s) ==> n.code % 32 < s
    {
      if s > 0 {
        LowerSlots(m, s - 1);
        forall n | n in m.chains[s - 1] ensures n.code % 32 == s - 1 {
          Node(m, s - 1, n);
        }
      }
    }

    /** As many nodes are met as there are classes on record. */
    lemma {:induction false} OrderCounts(m: Model<T, K>)
      requires Sound(m)
      ensures |Flat(m.chains)| == |m.contents|
    {
      OrderIsContents(m);
      var order, of := Flat(m.chains), map n | n in m.cells :: Class(m.cells[n].item);
      forall k | k in m.contents.Keys ensures m.nodes[k] in order && of[m.nodes[k]] == k {
        assert k in m.contents;
      }
      forall i, j | 0 <= i < j < |order| ensures of[order[i]] != of[order[j]] {
        DistinctApart(order, i, j);
      }
      SameSize(order, of, m.contents.Keys);
    }

    /** A list without repetitions that names each of some classes by one node is as long as they are many. */
    static lemma {:induction false} SameSize<N, C>(list: seq<N>, of: map<N, C>, classes: set<C>)
      requires Distinct(list)
      requires forall n :: n in list ==> n in of && of[n] in classes
      requires forall i, j :: 0 <= i < j < |list| ==> of[list[i]] != of[list[j]]
      requires forall k :: k in classes ==> exists i :: 0 <= i < |list| && of[list[i]] == k
      ensures |list| == |classes|
      decreases |list|
    {
      if list == [] {
        assert classes == {};
      } else {
        var k := of[list[0]];
        var fewer := classes - {k};
        forall n | n in list[1..] ensures of[n] in fewer {
          var i :| 0 <= i < |list[1..]| && list[1..][i] == n;
          assert list[i + 1] == n;
        }
        forall j | j in fewer ensures exists i :: 0 <= i < |list[1..]| && of[list[1..][i]] == j {
          var i :| 0 <= i < |list| && of[list[i]] == j;
          assert list[1..][i - 1] == list[i];
        }
        SameSize(list[1..], of, fewer);
      }
    }

    // ---------------------------------------------------------------------------------- the heap

    ghost predicate Holds(n: HashNode<T>, cell: Cell<T>)
      reads n
    {
      n.next == cell.next && n.item == cell.item
    }

    /** The memory is as the image says. */
    ghost predicate Valid()
      reads this, Repr
      ensures Valid() ==> this in Repr
    {
      && this in Repr && ready
      && topSize == |model.heads|
      && (top == null ==> topSize == 0)
      && (top != null ==> top in Repr && topSize == SLOTS && top[..] == model.heads)
      && (forall n {:trigger Holds(n, model.cells[n])} :: n in model.cells ==> n in Repr && Holds(n, model.cells[n]))
      && itemCount == |model.contents|
      && Coherent(hash, comp, canon)
      && Sound(model)
    }

    /** The finite map the table stands for. */
    ghost function Contents(): map<K, T>
      reads this
    {
      model.contents
    }

    /** The nodes in the order the iterator meets them. */
    ghost function Order(): seq<HashNode<T>>
      reads this
    {
      Flat(model.chains)
    }

    ghost function RefTo(n: HashNode<T>): Ref<T>
      reads n
    {
      if pointers then Pointer(n.item) else Place(n)
    }

    /** `hash_table_init`. */
    constructor (pointers: bool, hash: K -> nat, comp: (K, K) -> int, keyOf: T -> K, ghost canon: K -> K)
      requires Coherent(hash, comp, canon)
      ensures Valid() && fresh(Repr)
      ensures top == null && Contents() == map[] && Order() == []
      ensures this.pointers == pointers && this.hash == hash && this.keyOf == keyOf && this.canon == canon
    {
      top, topSize, itemCount, ready := null, 0, 0, true;
      this.pointers, this.hash, this.comp, this.keyOf := pointers, hash, comp, keyOf;
      this.canon := canon;
      model, Repr := Model(map[], [], map[], [], map[]), {this};
    }

    /** `hash_table_find`. */
    method Find(key: K) returns (found: Ref<T>)
      requires Valid()
      ensures canon(key) !in Contents() ==> found == Null
      ensures canon(key) in Contents() ==> (
                && canon(key) in model.nodes && found == RefTo(model.nodes[canon(key)])
                && model.nodes[canon(key)].item == Contents()[canon(key)])
    {
      if top == null {
        NothingYet();
        return Null;
      }
      var code := hash(key);
      var bucket := code % topSize;
      var n := top[bucket];
      ghost var m := model;
      assert Sound(m) && Coherent(hash, comp, canon);
      ghost var c, i := m.chains[bucket], 0;
      assert Chained(m.heads[bucket], c, bucket, m);
      while n != null
        invariant 0 <= i <= |c| && n == (if i < |c| then c[i] else null)
        invariant forall j :: 0 <= j < i ==> c[j] in m.cells && Class(m.cells[c[j]].item) != canon(key)
        decreases |c| - i
      {
        assert Placed(n, bucket, m) && Follows(c, i, m) && Holds(n, m.cells[n]);
        if n.code == code {
          if comp(key, keyOf(n.item)) == 0 {
            assert Recorded(canon(key), m);
            return if pointers then Pointer(n.item) else Place(n);
          }
        }
        n := n.next;
        i := i + 1;
      }
      Absent(m, key, c);
      return Null;
    }

    lemma {:induction false} RecordsNeedSlots(m: Model<T, K>)
      requires Sound(m)
      ensures m.chains == [] ==> m.nodes == map[] && m.contents == map[]
    {
      if k :| k in m.nodes {
        assert Recorded(k, m);
      } else {
        assert m.nodes.Keys == {} && m.contents.Keys == {};
      }
    }

    lemma {:induction false} NothingYet()
      requires Valid() && top == null
      ensures Contents() == map[] && model.nodes == map[] && Order() == []
    {
      var m := model;
      RecordsNeedSlots(m);
    }

    // ---------------------------------------------------------------------------------- assignment

    /** A new item in the node of an equal key. */
    method Overwrite(n: HashNode<T>, item: T)
      requires Valid() && n in model.cells && n.code == hash(keyOf(item))
      requires Class(item) in model.nodes && model.nodes[Class(item)] == n
      modifies this, n
      ensures Valid() && Repr == old(Repr) && top == old(top)
      ensures model == Overwriting(old(model), n, item)
    {
      ghost var m := model;
      OverwritingIsSound(m, n, item);
      assert Holds(n, m.cells[n]);
      n.item := item;
      model := Overwriting(m, n, item);
      forall o | o in model.cells ensures o in Repr && Holds(o, model.cells[o]) {
        assert old(Holds(o, m.cells[o]));
      }
    }

    /** A new node at the head of its chain. */
    method Link(n: HashNode<T>, slot: nat) returns (ghost p: nat)
      requires Valid() && top != null && n !in Repr
      requires slot == n.code % SLOTS && n.code == hash(keyOf(n.item)) && n.next == top[slot]
      requires Class(n.item) !in model.nodes
      modifies this, top
      ensures Valid() && Repr == old(Repr) + {n} && top == old(top)
      ensures slot < |old(model.heads)| == |old(model.chains)| && model == Linking(old(model), n, n.item, slot)
      ensures p == |Before(old(model.chains), slot)|
      ensures p <= |old(Order())| && Order() == old(Order())[..p] + [n] + old(Order())[p..]
    {
      ghost var m := model;
      assert Sound(m);
      p := FlatInsert(m.chains, slot, n);
      forall o | o in m.cells ensures o in Repr {
        assert Holds(o, m.cells[o]);
      }
      LinkingIsSound(m, n, n.item, slot);
      top[slot] := n;
      itemCount := itemCount + 1;
      model, Repr := Linking(m, n, n.item, slot), Repr + {n};
      forall o | o in model.cells ensures o in Repr && Holds(o, model.cells[o]) {
        assert o != n ==> old(Holds(o, m.cells[o]));
      }
    }

    /** The first allocation: 32 empty slots. */
    method Allocate()
      requires Valid() && top == null
      modifies this
      ensures Valid() && fresh(Repr - old(Repr)) && old(Repr) <= Repr && top != null
      ensures Contents() == old(Contents()) && Order() == old(Order())
    {
      NothingYet();
      top := new HashNode?<T>[SLOTS](_ => null);
      topSize := SLOTS;
      model := Model(map[], seq(SLOTS, _ => null), map[], seq(SLOTS, _ => []), map[]);
      Repr := Repr + {top};
      FlatEmpty(model.chains, 0);
    }

    /** `hash_table_assign`; `topMalloc` and `nodeMalloc` say whether its two allocations succeed. */
    method Assign(item: T, topMalloc: bool, nodeMalloc: bool)
      returns (r: Ref<T>, ghost how: Assignment, ghost p: nat)
      requires Valid()
      modifies Repr
      ensures Valid() && fresh(Repr - old(Repr))
      ensures how ==
        if (old(top) == null && !topMalloc) || (Class(item) !in old(Contents()) && !nodeMalloc) then Failed
        else if Class(item) in old(Contents()) then Replaced
        else Inserted
      ensures top == null <==> old(top) == null && !topMalloc
      ensures Contents() == if how == Failed then old(Contents()) else old(Contents())[Class(item) := item]
      ensures how != Inserted ==> Order() == old(Order())
      ensures how == Failed ==> r == Null
      ensures how != Failed ==> Class(item) in model.nodes
      ensures how == Replaced ==>
                r == if pointers then Pointer(old(Contents())[Class(item)]) else Place(model.nodes[Class(item)])
      ensures how == Inserted && pointers ==> r == Pointer(item)
      ensures how == Inserted ==> (
                && fresh(model.nodes[Class(item)]) && r == RefTo(model.nodes[Class(item)])
                && p <= |old(Order())|
                && Order() == old(Order())[..p] + [model.nodes[Class(item)]] + old(Order())[p..])
      ensures top != null ==> top.Length == 32
      ensures old(top) != null ==> |old(model.chains)| == 32
      ensures how == Inserted ==>
                p == if old(top) == null then 0 else |Before(old(model.chains), hash(keyOf(item)) % 32)|
    {
      p, how := 0, Failed;
      if top == null {
        NothingYet();
        if !topMalloc {
          return Null, how, p;
        }
        Allocate();
      }
      var key := keyOf(item);
      var code := hash(key);
      var slot := code % topSize;
      var n := top[slot];
      ghost var m := model;
      assert Sound(m) && Coherent(hash, comp, canon);
      ghost var c, i := m.chains[slot], 0;
      assert Chained(m.heads[slot], c, slot, m);
      while n != null
        invariant 0 <= i <= |c| && n == (if i < |c| then c[i] else null)
        invariant forall j :: 0 <= j < i ==> c[j] in m.cells && Class(m.cells[c[j]].item) != canon(key)
        decreases |c| - i
      {
        assert Placed(n, slot, m) && Follows(c, i, m) && Holds(n, m.cells[n]);
        if n.code == code {
          if comp(key, keyOf(n.item)) == 0 {
            assert Recorded(canon(key), m);
            r := if pointers then Pointer(n.item) else Place(n);
            Overwrite(n, item);
            how := Replaced;
            return;
          }
        }
        n := n.next;
        i := i + 1;
      }
      Absent(m, key, c);
      if !nodeMalloc {
        return Null, how, p;
      }
      var added := new HashNode(top[slot], code, item);
      p := Link(added, slot);
      how := Inserted;
      r := if pointers then Pointer(item) else Place(added);
    }

    // ---------------------------------------------------------------------------------- removal

    /** `hash_table_remove`. `p` is where in the order the removed node stood. */
    method Remove(key: K) returns (removed: int, ghost p: nat)
      requires Valid()
      modifies Repr
      ensures Valid() && Repr == old(Repr)
      ensures top == old(top) && removed == if canon(key) in old(Contents()) then 1 else 0
      ensures Contents() == old(Contents()) - {canon(key)}
      ensures forall o :: o in model.cells ==> o in old(model.cells) && model.cells[o].item == old(model.cells)[o].item
      ensures removed == 0 ==> Order() == old(Order())
      ensures removed == 1 ==> (
                && p < |old(Order())| && canon(key) in old(model.nodes)
                && old(Order())[p] == old(model.nodes)[canon(key)]
                && Order() == Without(old(Order()), p))
    {
      p := 0;
      if itemCount == 0 {
        assert Contents().Keys == {};
        return 0, p;
      }
      assert top != null by {
        if top == null {
          NothingYet();
        }
      }
      var code := hash(key);
      var slot := code % topSize;
      var prev: HashNode?<T> := null;
      var n := top[slot];
      ghost var m := model;
      assert Sound(m) && Coherent(hash, comp, canon);
      ghost var c, i := m.chains[slot], 0;
      assert Chained(m.heads[slot], c, slot, m);
      while n != null
        invariant 0 <= i <= |c| && n == (if i < |c| then c[i] else null)
        invariant prev == (if i == 0 then null else c[i - 1]) && (prev != null ==> prev in Repr)
        invariant forall j :: 0 <= j < i ==> c[j] in m.cells && Class(m.cells[c[j]].item) != canon(key)
        decreases |c| - i
      {
        assert Placed(n, slot, m) && Follows(c, i, m) && Holds(n, m.cells[n]);
        if n.code == code {
          if comp(key, keyOf(n.item)) == 0 {
            assert Recorded(canon(key), m);
            if prev == null {
              p := UnlinkHead(slot, n, i, canon(key));
            } else {
              p := UnlinkAfter(slot, prev, n, i, canon(key));
            }
            return 1, p;
          }
        }
        prev := n;
        n := n.next;
        i := i + 1;
      }
      Absent(m, key, c);
      assert Contents() - {canon(key)} == Contents();
      return 0, p;
    }

    /** The slot is set to what follows its first node. */
    method UnlinkHead(slot: nat, n: HashNode<T>, ghost i: nat, ghost k: K) returns (ghost p: nat)
      requires Valid() && top != null
      requires slot < |model.chains| && i < |model.chains[slot]| && n == model.chains[slot][i]
      requires i == 0
      requires k in model.nodes && model.nodes[k] == n && k in Contents()
      modifies this, top
      ensures Valid() && Repr == old(Repr) && top == old(top)
      ensures Contents() == old(Contents()) - {k}
      ensures forall o :: o in model.cells ==> o in old(model.cells) && model.cells[o].item == old(model.cells)[o].item
      ensures p < |old(Order())| && old(Order())[p] == n && Order() == Without(old(Order()), p)
    {
      ghost var m := model;
      assert Sound(m);
      UnlinkingIsSound(m, slot, i, k);
      p := FlatRemove(m.chains, slot, i);
      assert Holds(n, m.cells[n]);
      assert Chained(m.heads[slot], m.chains[slot], slot, m);
      top[slot] := n.next;
      itemCount := itemCount - 1;
      model := Unlinking(m, slot, i, k);
      forall o | o in model.cells ensures o in Repr && Holds(o, model.cells[o]) {
        assert old(Holds(o, m.cells[o]));
      }
      OneFewer(m.contents, k);
    }

    /** The node before `n` is set to what follows `n`. */
    method UnlinkAfter(slot: nat, prev: HashNode<T>, n: HashNode<T>, ghost i: nat, ghost k: K) returns (ghost p: nat)
      requires Valid() && top != null
      requires slot < |model.chains| && i < |model.chains[slot]| && n == model.chains[slot][i]
      requires i > 0 && prev == model.chains[slot][i - 1]
      requires k in model.nodes && model.nodes[k] == n && k in Contents()
      modifies this, prev
      ensures Valid() && Repr == old(Repr) && top == old(top)
      ensures Contents() == old(Contents()) - {k}
      ensures forall o :: o in model.cells ==> o in old(model.cells) && model.cells[o].item == old(model.cells)[o].item
      ensures p < |old(Order())| && old(Order())[p] == n && Order() == Without(old(Order()), p)
    {
      ghost var m := model;
      assert Sound(m);
      UnlinkingIsSound(m, slot, i, k);
      p := FlatRemove(m.chains, slot, i);
      assert Holds(n, m.cells[n]);
      assert Holds(prev, m.cells[prev]);
      prev.next := n.next;
      itemCount := itemCount - 1;
      model := Unlinking(m, slot, i, k);
      forall o | o in model.cells ensures o in Repr && Holds(o, model.cells[o]) {
        assert old(Holds(o, m.cells[o]));
      }
      OneFewer(m.contents, k);
    }

    lemma {:induction false} OneFewer(c: map<K, T>, k: K)
      requires k in c
      ensures |c - {k}| == |c| - 1
    {
      assert (c - {k}).Keys == c.Keys - {k};
    }

    /** `hash_table_deinit`: every node is freed once, in the order, and no item with it. The callbacks go with
        the rest, so the table is of no use until it is initialised again. */
    method Deinit() returns (ghost freed: seq<HashNode<T>>)
      requires Valid()
      modifies this
      ensures Repr == old(Repr) && top == null && topSize == itemCount == 0 && Contents() == map[]
      ensures !ready && !Valid()
      ensures freed == old(Order()) && Distinct(freed) && |freed| == |old(Contents())|
    {
      ghost var m := model;
      assert Sound(m);
      OrderIsContents(m);
      OrderCounts(m);
      freed := [];
      var i := 0;
      while i != topSize
        invariant 0 <= i <= topSize && freed == Before(m.chains, i)
        decreases topSize - i
      {
        ghost var c, j := m.chains[i], 0;
        assert Chained(m.heads[i], c, i, m);
        var n := top[i];
        while n != null
          invariant 0 <= j <= |c| && n == (if j < |c| then c[j] else null)
          invariant freed == Before(m.chains, i) + c[..j]
          decreases |c| - j
        {
          assert Placed(n, i, m) && Follows(c, j, m) && Holds(n, m.cells[n]);
          freed := freed + [n];
          n := n.next;
          j := j + 1;
        }
        assert c[..j] == c;
        i := i + 1;
      }
      FlatSplit(m.chains, |m.chains|);
      top, topSize, itemCount, ready := null, 0, 0, false;
      model := Model(map[], [], map[], [], map[]);
    }

    // ---------------------------------------------------------------------------------- iteration

    /** The iterator stands at `rest`: a tail of the order, with the next node to be returned first. */
    ghost predicate Ahead(node: HashNode?<T>, rest: seq<HashNode<T>>)
      reads this
    {
      Suffix(rest, Order()) && node == if rest == [] then null else rest[0]
    }

    /** The node that follows `n` in the order, as `move_next` finds it: down the chain, else at the head of
        the next slot that has one. */
    method MoveNext(n: HashNode<T>, ghost rest: seq<HashNode<T>>) returns (next: HashNode?<T>)
      requires Valid() && rest != [] && Ahead(n, rest)
      ensures Ahead(next, rest[1..])
    {
      ghost var m := model;
      assert Sound(m);
      ghost var s, i := SuffixStart(m.chains, 0, rest);
      ghost var c := m.chains[s];
      assert Chained(m.heads[s], c, s, m);
      assert Placed(n, s, m) && Follows(c, i, m) && Holds(n, m.cells[n]);
      SuffixTail(rest, Order());
      assert rest[1..] == c[i + 1..] + FlatFrom(m.chains, s + 1);
      var slot := n.code % topSize;
      next := n.next;
      if next == null {
        assert c[i + 1..] == [];
        while slot != topSize - 1
          invariant s <= slot < topSize && next == null
          invariant rest[1..] == FlatFrom(m.chains, slot + 1)
          decreases topSize - slot
        {
          slot := slot + 1;
          next := top[slot];
          assert Chained(m.heads[slot], m.chains[slot], slot, m);
          if next != null {
            break;
          }
        }
      }
    }

    /** The first loop of `hash_table_begin`: the first node there is, if there is one. */
    method FirstNode() returns (n: HashNode?<T>)
      requires Valid()
      ensures n == if Order() == [] then null else Order()[0]
    {
      ghost var m := model;
      assert Sound(m);
      n := null;
      var i := 0;
      while i != topSize
        invariant 0 <= i <= topSize && n == null && Order() == FlatFrom(m.chains, i)
        decreases topSize - i
      {
        assert Chained(m.heads[i], m.chains[i], i, m);
        if top[i] != null {
          n := top[i];
          return;
        }
        i := i + 1;
      }
    }

    /** `hash_table_begin`. To support removal of the current item, the iterator is moved on at once. */
    method Begin(iter: HashIterator<T, K>) returns (r: Ref<T>)
      requires Valid() && iter !in Repr
      modifies iter
      ensures iter.table == this && Ahead(iter.node, iter.rest)
      ensures Order() == [] ==> r == Null && iter.rest == []
      ensures Order() != [] ==> r == RefTo(Order()[0]) && iter.rest == Order()[1..]
    {
      iter.table := this;
      iter.node := null;
      iter.rest := [];
      var n := FirstNode();
      if n != null {
        r := if pointers then Pointer(n.item) else Place(n);
        ghost var order := Order();
        assert order[0..] == order;
        iter.node := MoveNext(n, order);
        iter.rest := order[1..];
        return;
      }
      return Null;
    }
  }

  /** `hash_iterator_t`. */
  class HashIterator<T, K(!new)> {
    var table: HashTable?<T, K>
    var node: HashNode?<T>
    /** What has not been returned yet. */
    ghost var rest: seq<HashNode<T>>

    constructor ()
      ensures table == null && node == null && rest == []
    {
      table, node, rest := null, null, [];
    }

    /** `hash_table_next`. */
    method Next() returns (r: Ref<T>)
      requires table != null && table.Valid() && this !in table.Repr && table.Ahead(node, rest)
      modifies this
      ensures table == old(table) && table.Ahead(node, rest)
      ensures old(rest) == [] ==> r == Null && rest == []
      ensures old(rest) != [] ==> r == table.RefTo(old(rest)[0]) && rest == old(rest)[1..]
    {
      if node == null {
        return Null;
      }
      var retnode := node;
      node := table.MoveNext(node, rest);
      rest := rest[1..];
      r := if table.pointers then Pointer(retnode.item) else Place(retnode);
    }
  }
}
