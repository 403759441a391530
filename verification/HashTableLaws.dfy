/** What the hash table asks of its callbacks, and what a run of its operations amounts to. */
module HashTableLaws {
  import opened HashTables

  /** The header's demand: `comp` is zero on an equivalence of keys, and equal keys hash alike. */
  ghost predicate KeyRules<K(!new)>(hash: K -> nat, comp: (K, K) -> int) {
    && (forall a {:trigger comp(a, a)} :: comp(a, a) == 0)
    && (forall a, b {:trigger comp(a, b)} :: comp(a, b) == 0 ==> comp(b, a) == 0 && hash(a) == hash(b))
    && (forall a, b, c {:trigger comp(a, b), comp(b, c)} :: comp(a, b) == 0 && comp(b, c) == 0 ==> comp(a, c) == 0)
  }

  ghost function Choose<K>(keys: iset<K>): (k: K)
    requires exists k :: k in keys
    ensures k in keys
  {
    var k :| k in keys;
    k
  }

  ghost function Equals<K(!new)>(comp: (K, K) -> int, a: K): iset<K> {
    iset b | comp(a, b) == 0
  }

  ghost function Representative<K(!new)>(comp: (K, K) -> int, a: K): K {
    if a in Equals(comp, a) then Choose(Equals(comp, a)) else a
  }

  /** The demand is exactly what the table needs: equal keys have a common representative. */
  lemma {:induction false} Representatives<K(!new)>(hash: K -> nat, comp: (K, K) -> int) returns (canon: K -> K)
    requires KeyRules(hash, comp)
    ensures Coherent(hash, comp, canon)
  {
    canon := (a: K) => Representative(comp, a);
    forall a ensures comp(a, Representative(comp, a)) == 0 && comp(Representative(comp, a), a) == 0 {
      assert comp(a, a) == 0;
      assert a in Equals(comp, a);
    }
    forall a, b ensures comp(a, b) == 0 <==> canon(a) == canon(b) {
      var c, d := canon(a), canon(b);
      assert comp(a, c) == 0 && comp(d, b) == 0;
      if comp(a, b) == 0 {
        assert comp(b, a) == 0;
        assert Equals(comp, a) == Equals(comp, b);
      }
    }
    forall a ensures canon(canon(a)) == canon(a) && hash(canon(a)) == hash(a) {
      assert comp(canon(a), a) == 0;
    }
  }

  lemma {:induction false} Demanded<K(!new)>(hash: K -> nat, comp: (K, K) -> int, canon: K -> K)
    requires Coherent(hash, comp, canon)
    ensures KeyRules(hash, comp)
  {
    forall a ensures comp(a, a) == 0 {
    }
    forall a, b | comp(a, b) == 0 ensures comp(b, a) == 0 && hash(a) == hash(b) {
      assert hash(canon(a)) == hash(a) && hash(canon(b)) == hash(b);
    }
  }

  /** Masking a code with one less than the 32 slots is taking its remainder. */
  lemma {:induction false} MaskIsRemainder(code: bv64)
    ensures code & (32 - 1) == code % 32
  {
  }

  /** A change a caller asks for; `done` is false for an assignment that found no memory. */
  datatype Change<T, K> = Assigned(item: T, done: bool) | Removed(key: K)

  /** The contents after one change, as the contracts of the operations give them. */
  ghost function Applied<T, K>(held: map<K, T>, change: Change<T, K>, classOf: T -> K, canon: K -> K): map<K, T> {
    match change
    case Assigned(item, done) => if done then held[classOf(item) := item] else held
    case Removed(key) => held - {canon(key)}
  }

  /** The contents after a run of changes, one after the other. */
  ghost function Played<T, K>(changes: seq<Change<T, K>>, classOf: T -> K, canon: K -> K): map<K, T> {
    if changes == [] then map[]
    else Applied(Played(changes[..|changes| - 1], classOf, canon), changes[|changes| - 1], classOf, canon)
  }

  /** The change affects what is held for class `k`. */
  ghost predicate Touches<T, K>(change: Change<T, K>, k: K, classOf: T -> K, canon: K -> K) {
    match change
    case Assigned(item, done) => done && classOf(item) == k
    case Removed(key) => canon(key) == k
  }

  /** Change `i` is the last one that affects class `k`, and an assignment. */
  ghost predicate LastWord<T, K>(changes: seq<Change<T, K>>, i: int, k: K, classOf: T -> K, canon: K -> K) {
    && 0 <= i < |changes| && changes[i].Assigned? && Touches(changes[i], k, classOf, canon)
    && forall j {:trigger changes[j]} :: i < j < |changes| ==> !Touches(changes[j], k, classOf, canon)
  }

  /** What a key finds after any run is the item last assigned under an equal key and not removed since. */
  lemma {:induction false} FindsLastAssigned<T, K>(changes: seq<Change<T, K>>, k: K, classOf: T -> K, canon: K -> K)
    ensures k in Played(changes, classOf, canon) <==> exists i :: LastWord(changes, i, k, classOf, canon)
    ensures forall i :: LastWord(changes, i, k, classOf, canon) ==>
              k in Played(changes, classOf, canon) && Played(changes, classOf, canon)[k] == changes[i].item
  {
    if changes != [] {
      var n := |changes| - 1;
      var before := changes[..n];
      FindsLastAssigned(before, k, classOf, canon);
      if Touches(changes[n], k, classOf, canon) {
        assert changes[n].Assigned? ==> LastWord(changes, n, k, classOf, canon);
        assert forall i :: LastWord(changes, i, k, classOf, canon) ==> i == n;
      } else {
        forall i ensures LastWord(changes, i, k, classOf, canon) <==> LastWord(before, i, k, classOf, canon) {
          assert 0 <= i < n ==> before[i] == changes[i];
          if LastWord(changes, i, k, classOf, canon) {
            forall j | i < j < n ensures !Touches(before[j], k, classOf, canon) {
              assert before[j] == changes[j];
            }
          }
        }
      }
    }
  }

  // ---------------------------------------------------------------------------------- runs on a table

  /** A call a caller makes; the flags of an assignment say whether its two allocations succeed. */
  datatype Request<T, K> = Assigning(item: T, topMalloc: bool, nodeMalloc: bool) | Removing(key: K)

  /** How a table stands during a run: the changes made so far, what it holds, and whether it has slots. */
  datatype Stage<T, K> = Stage(made: seq<Change<T, K>>, held: map<K, T>, slots: bool)

  /** What a request comes to. An assignment finds memory if there are slots or they can be allocated, and if
      there is an item to overwrite or a node can be allocated. */
  ghost function Served<T, K>(s: Stage<T, K>, request: Request<T, K>, classOf: T -> K, canon: K -> K): Stage<T, K> {
    match request
    case Assigning(item, topMalloc, nodeMalloc) =>
      var slots := s.slots || topMalloc;
      var change := Assigned(item, slots && (nodeMalloc || classOf(item) in s.held));
      Stage(s.made + [change], Applied(s.held, change, classOf, canon), slots)
    case Removing(key) =>
      Stage(s.made + [Removed(key)], Applied(s.held, Removed(key), classOf, canon), s.slots)
  }

  ghost function After<T, K>(s: Stage<T, K>, requests: seq<Request<T, K>>, n: nat, classOf: T -> K, canon: K -> K)
    : Stage<T, K>
    requires n <= |requests|
  {
    if n == 0 then s else Served(After(s, requests, n - 1, classOf, canon), requests[n - 1], classOf, canon)
  }

  /** What a run of requests changes on an empty table, `slots` saying whether it has slots at the start. */
  ghost function Made<T, K>(requests: seq<Request<T, K>>, slots: bool, classOf: T -> K, canon: K -> K)
    : seq<Change<T, K>>
  {
    After(Stage([], map[], slots), requests, |requests|, classOf, canon).made
  }

  lemma {:induction false} MadeSoFar<T, K>(s: Stage<T, K>, requests: seq<Request<T, K>>, n: nat,
                                           classOf: T -> K, canon: K -> K)
    requires n <= |requests|
    ensures |After(s, requests, n, classOf, canon).made| == |s.made| + n
    ensures After(s, requests, n, classOf, canon).slots <==>
              s.slots || exists j :: 0 <= j < n && requests[j].Assigning? && requests[j].topMalloc
  {
    if n > 0 {
      MadeSoFar(s, requests, n - 1, classOf, canon);
    }
  }

  lemma {:induction false} MadeStays<T, K>(s: Stage<T, K>, requests: seq<Request<T, K>>, n: nat, m: nat,
                                           classOf: T -> K, canon: K -> K)
    requires n <= m <= |requests|
    ensures After(s, requests, n, classOf, canon).made <= After(s, requests, m, classOf, canon).made
    decreases m
  {
    if n < m {
      MadeStays(s, requests, n, m - 1, classOf, canon);
    }
  }

  /** Each request makes one change: a removal always; an assignment unless memory runs out, that is unless there
      are no slots and none can be allocated, or the class holds nothing yet and no node can be. */
  lemma {:induction false} MadeIs<T, K>(requests: seq<Request<T, K>>, slots: bool, i: nat, classOf: T -> K, canon: K -> K)
    requires i < |requests|
    ensures var made := Made(requests, slots, classOf, canon);
            && |made| == |requests|
            && match requests[i] {
               case Removing(key) => made[i] == Removed(key)
               case Assigning(item, topMalloc, nodeMalloc) =>
                 && made[i].Assigned? && made[i].item == item
                 && (made[i].done <==>
                       && (slots || exists j :: 0 <= j <= i && requests[j].Assigning? && requests[j].topMalloc)
                       && (nodeMalloc || exists j :: LastWord(made[..i], j, classOf(item), classOf, canon)))
               }
  {
    var s := Stage([], map[], slots);
    var before, after := After(s, requests, i, classOf, canon), After(s, requests, i + 1, classOf, canon);
    MadeSoFar(s, requests, i, classOf, canon);
    MadeSoFar(s, requests, i + 1, classOf, canon);
    MadeSoFar(s, requests, |requests|, classOf, canon);
    MadeStays(s, requests, i, |requests|, classOf, canon);
    MadeStays(s, requests, i + 1, |requests|, classOf, canon);
    assert Made(requests, slots, classOf, canon)[..i] == before.made;
    assert after.made == before.made + [after.made[i]] && Made(requests, slots, classOf, canon)[i] == after.made[i];
    HeldAfter(s, requests, i, classOf, canon);
    if requests[i].Assigning? {
      FindsLastAssigned(before.made, classOf(requests[i].item), classOf, canon);
    }
  }

  lemma {:induction false} HeldAfter<T, K>(s: Stage<T, K>, requests: seq<Request<T, K>>, n: nat,
                                           classOf: T -> K, canon: K -> K)
    requires n <= |requests| && s.held == Played(s.made, classOf, canon)
    ensures var t := After(s, requests, n, classOf, canon); t.held == Played(t.made, classOf, canon)
  {
    if n > 0 {
      var before := After(s, requests, n - 1, classOf, canon);
      HeldAfter(s, requests, n - 1, classOf, canon);
      ServedPlays(before, requests[n - 1], classOf, canon);
      assert After(s, requests, n, classOf, canon) == Served(before, requests[n - 1], classOf, canon);
    }
  }

  lemma {:induction false} ServedPlays<T, K>(s: Stage<T, K>, request: Request<T, K>, classOf: T -> K, canon: K -> K)
    requires s.held == Played(s.made, classOf, canon)
    ensures var s' := Served(s, request, classOf, canon);
            |s'.made| == |s.made| + 1 && s'.held == Played(s'.made, classOf, canon)
  {
    var s' := Served(s, request, classOf, canon);
    assert s'.made[..|s'.made| - 1] == s.made;
  }

  /** `stages` are how the table stands before, between and after the requests. */
  ghost predicate Staged<T, K>(stages: seq<Stage<T, K>>, requests: seq<Request<T, K>>, classOf: T -> K, canon: K -> K) {
    |stages| == |requests| + 1
    && forall i {:trigger StagedAt(stages, requests, i, classOf, canon)} :: 0 <= i < |requests| ==>
         StagedAt(stages, requests, i, classOf, canon)
  }

  ghost predicate StagedAt<T, K>(stages: seq<Stage<T, K>>, requests: seq<Request<T, K>>, i: nat,
                                 classOf: T -> K, canon: K -> K)
    requires i < |requests| && |stages| == |requests| + 1
  {
    stages[i + 1] == Served(stages[i], requests[i], classOf, canon)
  }

  /** What is held is what the changes, played one after the other, leave. */
  lemma {:induction false} HeldIsPlayed<T, K>(stages: seq<Stage<T, K>>, requests: seq<Request<T, K>>, n: nat,
                                              classOf: T -> K, canon: K -> K)
    requires n <= |requests| && Staged(stages, requests, classOf, canon)
    requires stages[0].made == [] && stages[0].held == map[]
    ensures |stages[n].made| == n && stages[n].held == Played(stages[n].made, classOf, canon)
  {
    if n > 0 {
      HeldIsPlayed(stages, requests, n - 1, classOf, canon);
      assert StagedAt(stages, requests, n - 1, classOf, canon);
      ServedPlays(stages[n - 1], requests[n - 1], classOf, canon);
    }
  }

  lemma {:induction false} Stages<T, K>(requests: seq<Request<T, K>>, slots: bool, classOf: T -> K, canon: K -> K)
    returns (stages: seq<Stage<T, K>>)
    ensures Staged(stages, requests, classOf, canon) && stages[0] == Stage([], map[], slots)
    ensures stages[|requests|].made == Made(requests, slots, classOf, canon)
  {
    stages := seq(|requests| + 1, i requires 0 <= i <= |requests| =>
      After(Stage([], map[], slots), requests, i, classOf, canon));
  }

  ghost predicate StandsAs<T, K(!new)>(table: HashTable<T, K>, s: Stage<T, K>)
    reads table
  {
    table.Contents() == s.held && (table.top != null <==> s.slots)
  }

  /** One request put to a table. */
  method Serve<T, K(==, !new)>(table: HashTable<T, K>, request: Request<T, K>, ghost s: Stage<T, K>)
    requires table.Valid() && StandsAs(table, s)
    modifies table.Repr
    ensures table.Valid() && fresh(table.Repr - old(table.Repr))
    ensures StandsAs(table, Served(s, request, table.Class, table.canon))
  {
    match request {
      case Assigning(item, topMalloc, nodeMalloc) =>
        if table.top == null {
          table.NothingYet();
        }
        var _, _, _ := table.Assign(item, topMalloc, nodeMalloc);
      case Removing(key) =>
        var _, _ := table.Remove(key);
    }
  }

  method Play<T, K(==, !new)>(table: HashTable<T, K>, requests: seq<Request<T, K>>, n: nat,
                              ghost stages: seq<Stage<T, K>>)
    requires table.Valid() && n <= |requests|
    requires Staged(stages, requests, table.Class, table.canon) && StandsAs(table, stages[0])
    modifies table.Repr
    ensures table.Valid() && fresh(table.Repr - old(table.Repr))
    ensures StandsAs(table, stages[n])
  {
    if n > 0 {
      assert StagedAt(stages, requests, n - 1, table.Class, table.canon);
      Play(table, requests, n - 1, stages);
      Serve(table, requests[n - 1], stages[n - 1]);
    }
  }

  /** What is found is `item`: itself, or at the place it was copied to. */
  ghost predicate Shows<T>(found: Ref<T>, item: T)
    reads if found.Place? then {found.node} else {}
  {
    match found
    case Null => false
    case Pointer(i) => i == item
    case Place(n) => n.item == item
  }

  /** What is found is the item that had the last word on class `k`, and nothing exactly if none had. */
  ghost predicate ShowsLast<T, K>(found: Ref<T>, changes: seq<Change<T, K>>, k: K, classOf: T -> K, canon: K -> K)
    reads if found.Place? then {found.node} else {}
  {
    && (found == Null <==> !exists i :: LastWord(changes, i, k, classOf, canon))
    && (forall i :: LastWord(changes, i, k, classOf, canon) ==> Shows(found, changes[i].item))
  }

  lemma {:induction false} HeldIsLast<T, K>(found: Ref<T>, changes: seq<Change<T, K>>, k: K,
                                            classOf: T -> K, canon: K -> K)
    requires var held := Played(changes, classOf, canon);
             if k in held then Shows(found, held[k]) else found == Null
    ensures ShowsLast(found, changes, k, classOf, canon)
  {
    FindsLastAssigned(changes, k, classOf, canon);
  }

  /** A run of assignments and removals on an empty table. */
  method PlayAll<T, K(==, !new)>(table: HashTable<T, K>, requests: seq<Request<T, K>>)
    returns (ghost made: seq<Change<T, K>>)
    requires table.Valid() && table.Contents() == map[]
    modifies table.Repr
    ensures table.Valid() && fresh(table.Repr - old(table.Repr))
    ensures made == Made(requests, old(table.top) != null, table.Class, table.canon)
    ensures table.Contents() == Played(made, table.Class, table.canon)
  {
    ghost var stages := Stages(requests, table.top != null, table.Class, table.canon);
    made := stages[|requests|].made;
    HeldIsPlayed(stages, requests, |requests|, table.Class, table.canon);
    Play(table, requests, |requests|, stages);
  }

  /** Any such run leaves what its changes, played one after the other, leave; so a key looked up after it
      finds the item that had the last word, and nothing exactly if none had. */
  method PlayAndFind<T, K(==, !new)>(table: HashTable<T, K>, requests: seq<Request<T, K>>, key: K)
    returns (found: Ref<T>, ghost made: seq<Change<T, K>>)
    requires table.Valid() && table.Contents() == map[]
    modifies table.Repr
    ensures table.Valid() && fresh(table.Repr - old(table.Repr))
    ensures made == Made(requests, old(table.top) != null, table.Class, table.canon)
    ensures table.Contents() == Played(made, table.Class, table.canon)
    ensures ShowsLast(found, made, table.canon(key), table.Class, table.canon)
  {
    made := PlayAll(table, requests);
    found := table.Find(key);
    HeldIsLast(found, made, table.canon(key), table.Class, table.canon);
  }
}
