/** The growable vector: one block of memory, edited in place or moved to a larger block. */
module Vectors {

  /** `VECTOR_MAX_COUNT`. */
  const MAX_COUNT: nat := 0x100000

  /** The block size allocated for `n` items. */
  function Grown(n: nat): nat {
    n + n / 4 + 16
  }

  // ------------------------------------------------------------------------------------ the sequence edits

  function Spliced<T>(s: seq<T>, index: nat, items: seq<T>): seq<T>
    requires index <= |s|
  {
    s[..index] + items + s[index..]
  }

  function Least(a: nat, b: nat): nat {
    if a < b then a else b
  }

  function Cut<T>(s: seq<T>, index: nat, count: nat): seq<T>
    requires index <= |s|
  {
    s[..index] + s[index + Least(count, |s| - index)..]
  }

  /** Place by place: the items before the index, the new ones, the items that stood from the index on... */
  lemma {:induction false} SplicedIs<T>(s: seq<T>, index: nat, items: seq<T>)
    requires index <= |s|
    ensures var t := Spliced(s, index, items);
            && |t| == |s| + |items|
            && (forall k :: 0 <= k < index ==> t[k] == s[k])
            && (forall k {:trigger items[k]} :: 0 <= k < |items| ==> t[index + k] == items[k])
            && (forall k {:trigger s[k]} :: index <= k < |s| ==> t[k + |items|] == s[k])
  {
  }

  /** ...and what is left: the items before the index, and those behind the range, which ends with the sequence if
      it would go beyond. */
  lemma {:induction false} CutIs<T>(s: seq<T>, index: nat, count: nat)
    requires index <= |s|
    ensures var t := Cut(s, index, count);
            && |t| == (if index + count <= |s| then |s| - count else index)
            && (forall k :: 0 <= k < index ==> t[k] == s[k])
            && (forall k {:trigger s[k]} :: index + count <= k < |s| ==> t[k - count] == s[k])
  {
  }

  /** Removing what was just inserted gives the sequence back... */
  lemma {:induction false} CutUndoesSplice<T>(s: seq<T>, index: nat, items: seq<T>)
    requires index <= |s|
    ensures Cut(Spliced(s, index, items), index, |items|) == s
  {
    var t := Spliced(s, index, items);
    assert t[..index] == s[..index];
    assert t[index + |items|..] == s[index..];
  }

  /** ...and so does inserting what was just removed. */
  lemma {:induction false} SpliceUndoesCut<T>(s: seq<T>, index: nat, count: nat)
    requires index <= |s|
    ensures var n := Least(count, |s| - index);
            Spliced(Cut(s, index, count), index, s[index..index + n]) == s
  {
    var n := Least(count, |s| - index);
    var t := Cut(s, index, count);
    assert t[..index] == s[..index] && t[index..] == s[index + n..];
    assert s[..index] + s[index..index + n] == s[..index + n];
  }

  // ------------------------------------------------------------------------------------ whole runs

  /** A vector as its callers see it, with what growing has cost: items copied out of old blocks so far, and
      the largest number of items held so far. */
  datatype State<T> = State(items: seq<T>, phys: nat, copied: nat, peak: nat)

  /** `room` says whether the allocation succeeds, should one be needed. */
  datatype Edit<T> = Insert(index: nat, items: seq<T>, room: bool) | Remove(index: nat, count: nat)

  predicate Accepted<T>(v: State<T>, index: nat, count: nat, room: bool) {
    && index <= |v.items|
    && 0 < count
    && |v.items| + count <= MAX_COUNT
    && (|v.items| + count <= v.phys || room)
  }

  function Inserted<T>(v: State<T>, index: nat, items: seq<T>, room: bool): State<T> {
    if !Accepted(v, index, |items|, room) then v else
    var n := |v.items| + |items|;
    var grow := v.phys < n;
    State(Spliced(v.items, index, items),
          if grow then Grown(n) else v.phys,
          if grow then v.copied + |v.items| else v.copied,
          if v.peak < n then n else v.peak)
  }

  function Edited<T>(v: State<T>, edit: Edit<T>): State<T> {
    match edit
    case Insert(index, items, room) => Inserted(v, index, items, room)
    case Remove(index, count) => if index <= |v.items| then v.(items := Cut(v.items, index, count)) else v
  }

  /** When an insertion is refused, and what a vector is after one that is not: at most 0x100000 items, and if the
      block does not hold them a larger one, with a quarter and sixteen to spare, into which the old ones go. */
  lemma {:induction false} InsertedIs<T>(v: State<T>, index: nat, items: seq<T>, room: bool)
    ensures var used, n, after := |v.items|, |v.items| + |items|, Inserted(v, index, items, room);
            if index > used || items == [] || n > 0x100000 || (n > v.phys && !room) then after == v
            else
              && after.items == v.items[..index] + items + v.items[index..]
              && after.phys == (if n > v.phys then n + n / 4 + 16 else v.phys)
              && after.copied == (if n > v.phys then v.copied + used else v.copied)
  {
  }

  function Run<T>(v: State<T>, edits: seq<Edit<T>>): State<T>
    decreases |edits|
  {
    if edits == [] then v else Run(Edited(v, edits[0]), edits[1..])
  }

  function Empty<T>(): State<T> {
    State([], 0, 0, 0)
  }

  /** What every edit keeps. `last` is the number of items the block was last made for. */
  predicate Paid<T>(v: State<T>, last: nat) {
    && |v.items| <= v.phys
    && |v.items| <= v.peak <= MAX_COUNT
    && last <= v.peak
    && v.phys == (if last == 0 then 0 else Grown(last))
    && v.copied <= 5 * last
  }

  lemma {:induction false} EditPaid<T>(v: State<T>, last: nat, edit: Edit<T>) returns (last': nat)
    requires Paid(v, last)
    ensures Paid(Edited(v, edit), last')
  {
    last' := last;
    if edit.Insert? && Accepted(v, edit.index, |edit.items|, edit.room) && v.phys < |v.items| + |edit.items| {
      last' := |v.items| + |edit.items|;
    }
  }

  lemma {:induction false} RunPaid<T>(v: State<T>, last: nat, edits: seq<Edit<T>>) returns (last': nat)
    requires Paid(v, last)
    ensures Paid(Run(v, edits), last')
    decreases |edits|
  {
    last' := last;
    if edits != [] {
      last' := EditPaid(v, last, edits[0]);
      last' := RunPaid(Edited(v, edits[0]), last', edits[1..]);
    }
  }

  /** In every run from a new vector, growing copies at most five items for each of the most items held at
      once, and the sizes stay within the caps. */
  lemma {:induction false} AmortisedGrowth<T>(edits: seq<Edit<T>>)
    ensures var v := Run(Empty<T>(), edits);
            && v.copied <= 5 * v.peak
            && |v.items| <= v.phys <= 1310736
            && |v.items| <= v.peak <= MAX_COUNT
  {
    var last := RunPaid(Empty<T>(), 0, edits);
  }

  // ------------------------------------------------------------------------------------ block moves

  /** The block with `piece` written at `at`, item by item. */
  function Written<T>(block: seq<T>, at: nat, piece: seq<T>): (r: seq<T>)
    requires at + |piece| <= |block|
    ensures |r| == |block|
    decreases |piece|
  {
    if piece == [] then block else Written(block, at, piece[..|piece| - 1])[at + |piece| - 1 := piece[|piece| - 1]]
  }

  lemma {:induction false} WrittenIs<T>(block: seq<T>, at: nat, piece: seq<T>)
    requires at + |piece| <= |block|
    ensures Written(block, at, piece) == block[..at] + piece + block[at + |piece|..]
    decreases |piece|
  {
    if piece != [] {
      WrittenIs(block, at, piece[..|piece| - 1]);
    }
  }

  /** The array holds the block. */
  ghost predicate Image<T>(a: array<T>, block: seq<T>)
    reads a
  {
    a.Length == |block| && forall i {:trigger a[i]} {:trigger block[i]} :: 0 <= i < |block| ==> a[i] == block[i]
  }

  /** `memmove`, section 7.24.2.2 of C11: as if the items were copied out first, so the two places may overlap. */
  method MemMove<T>(to: array<T>, at: nat, source: array<T>, first: nat, count: nat, ghost before: seq<T>, ghost from: seq<T>)
    returns (ghost moved: nat)
    requires at + count <= to.Length && first + count <= source.Length
    requires Image(to, before) && Image(source, from)
    modifies to
    ensures Image(to, Written(before, at, from[first..first + count])) && moved == count
  {
    forall k | 0 <= k < count {
      to[at + k] := source[first + k];
    }
    WrittenIs(before, at, from[first..first + count]);
    moved := count;
  }

  /** The block stands for the state: its first items are the items, the rest is spare. */
  ghost predicate Fits<T>(block: seq<T>, v: State<T>) {
    |v.items| <= |block| == v.phys && block[..|v.items|] == v.items
  }

  /** Closing the gap: the items behind a removed range, moved down over it. */
  lemma {:induction false} ClosedGap<T>(block: seq<T>, v: State<T>, index: nat, gap: nat)
    requires Fits(block, v) && index + gap <= |v.items|
    ensures Fits(Written(block, index, block[index + gap..|v.items|]), v.(items := Cut(v.items, index, gap)))
  {
    WrittenIs(block, index, block[index + gap..|v.items|]);
    assert v.items[index + gap..] == block[index + gap..|v.items|];
  }

  /** Nothing to move: nothing is removed, or nothing lies behind it. */
  lemma {:induction false} NoGap<T>(block: seq<T>, v: State<T>, index: nat, gap: nat)
    requires Fits(block, v) && index + gap <= |v.items| && (gap == 0 || index + gap == |v.items|)
    ensures Fits(block, v.(items := Cut(v.items, index, gap)))
  {
    assert block[..|v.items| - gap] == Cut(v.items, index, gap);
  }

  /** Opening a gap and filling it, in place. */
  lemma {:induction false} FilledGap<T>(block: seq<T>, v: State<T>, index: nat, taken: seq<T>)
    requires Fits(block, v) && index <= |v.items| && |v.items| + |taken| <= |block|
    requires Accepted(v, index, |taken|, true)
    ensures Fits(Written(Shifted(block, index, |taken|, |v.items|), index, taken), Inserted(v, index, taken, true))
  {
    var used := |v.items|;
    var shifted := Shifted(block, index, |taken|, used);
    WrittenIs(block, index + |taken|, block[index..used]);
    WrittenIs(shifted, index, taken);
    assert v.items[index..] == block[index..used];
    assert shifted[..index] == block[..index];
    assert shifted[index + |taken|..][..used - index] == block[index..used];
  }

  /** Three pieces written side by side. */
  function Joined<T>(raw: seq<T>, one: seq<T>, two: seq<T>, three: seq<T>): (r: seq<T>)
    requires |one| + |two| + |three| <= |raw|
    ensures |r| == |raw|
  {
    Written(Written(Written(raw, 0, one), |one|, two), |one| + |two|, three)
  }

  lemma {:induction false} WrittenNext<T>(block: seq<T>, done: seq<T>, piece: seq<T>)
    requires |done| + |piece| <= |block| && block[..|done|] == done
    ensures Written(block, |done|, piece)[..|done| + |piece|] == done + piece
  {
    WrittenIs(block, |done|, piece);
  }

  lemma {:induction false} PairIs<T>(raw: seq<T>, one: seq<T>, two: seq<T>)
    requires |one| + |two| <= |raw|
    ensures Written(Written(raw, 0, one), |one|, two)[..|one| + |two|] == one + two
  {
    WrittenNext(raw, [], one);
    assert [] + one == one;
    WrittenNext(Written(raw, 0, one), one, two);
  }

  lemma {:induction false} JoinedIs<T>(raw: seq<T>, one: seq<T>, two: seq<T>, three: seq<T>)
    requires |one| + |two| + |three| <= |raw|
    ensures Joined(raw, one, two, three)[..|one| + |two| + |three|] == one + two + three
  {
    var pair := Written(Written(raw, 0, one), |one|, two);
    var done := one + two;
    PairIs(raw, one, two);
    assert pair[..|done|] == done;
    WrittenNext(pair, done, three);
  }

  /** A new block put together from the old items and the source. */
  lemma {:induction false} PutTogether<T>(raw: seq<T>, block: seq<T>, v: State<T>, index: nat, taken: seq<T>)
    requires Fits(block, v) && index <= |v.items| && |raw| == Grown(|v.items| + |taken|)
    requires Accepted(v, index, |taken|, true) && v.phys < |v.items| + |taken|
    ensures Fits(Joined(raw, block[..index], taken, block[index..|v.items|]), Inserted(v, index, taken, true))
  {
    JoinedIs(raw, block[..index], taken, block[index..|v.items|]);
    assert v.items[..index] == block[..index];
    assert v.items[index..] == block[index..|v.items|];
  }

  // ------------------------------------------------------------------------------------ a source inside the vector

  /** The block after the items from `index` on have been moved up by `count`. */
  function Shifted<T>(block: seq<T>, index: nat, count: nat, used: nat): seq<T>
    requires index <= used && used + count <= |block|
  {
    Written(block, index + count, block[index..used])
  }

  /** The source lies clear of the items that an insertion in place moves up. */
  predicate Clear(index: nat, count: nat, used: nat, first: nat) {
    index == used || first <= index || used + count <= first
  }

  /** A source inside the vector is read as it was if it is clear of the items moved... */
  lemma {:induction false} ClearSource<T>(block: seq<T>, index: nat, count: nat, used: nat, first: nat)
    requires index <= used && used + count <= |block| && first + count <= |block|
    requires Clear(index, count, used, first)
    ensures Shifted(block, index, count, used)[first..first + count] == block[first..first + count]
  {
    var after := Shifted(block, index, count, used);
    WrittenIs(block, index + count, block[index..used]);
    if index == used {
      assert after == block;
    } else if first <= index {
      assert after[..index + count] == block[..index + count];
      assert after[first..first + count] == after[..index + count][first..first + count];
    } else {
      assert after[used + count..] == block[used + count..];
      assert after[first..first + count] == after[used + count..][first - used - count..first - used];
    }
  }

  /** ...and otherwise not: wherever it lies, some of it has been overwritten. */
  lemma {:induction false} MovedSource(block: seq<int>, index: nat, count: nat, used: nat, first: nat)
    requires index <= used && used + count <= |block| && first + count <= |block| && 0 < count
    requires !Clear(index, count, used, first)
    requires forall i :: 0 <= i < |block| ==> block[i] == i
    ensures Shifted(block, index, count, used)[first..first + count] != block[first..first + count]
  {
    WrittenIs(block, index + count, block[index..used]);
    var after := Shifted(block, index, count, used);
    var at := if first < index + count then index + count else first;
    assert after[at] == block[index..used][at - index - count] == at - count;
    assert after[first..first + count][at - first] == at - count;
  }

  // ------------------------------------------------------------------------------------ the vector

  /** `vector_t`. */
  class Vector<T(0)> {
    var items: array?<T>
    var itemCount: nat
    var physSize: nat

    /** What the vector stands for. */
    ghost var shape: State<T>
    /** What its memory holds, spare places included. */
    ghost var block: seq<T>
    ghost var last: nat
    /** How many items block moves have read out of a block that was then given up. */
    ghost var moved: nat

    ghost predicate Valid()
      reads this, items
    {
      && (items == null <==> physSize == 0)
      && (items != null ==> Image(items, block))
      && physSize == |block| && itemCount == |shape.items|
      && Fits(block, shape) && Paid(shape, last) && shape.copied == moved
    }

    /** `vector_init`. */
    constructor ()
      ensures Valid() && shape == Empty<T>()
    {
      items, itemCount, physSize := null, 0, 0;
      shape, block, last, moved := Empty<T>(), [], 0, 0;
    }

    /** `vector_item_get`: how far into the block the item stands; the place after the last item counts. */
    method Get(index: nat) returns (found: bool, at: nat)
      requires Valid()
      ensures found <==> index <= |shape.items|
      ensures found ==> at == index
      ensures found && at < |shape.items| ==> items != null && items[at] == shape.items[index]
    {
      if index > itemCount {
        return false, 0;
      }
      return true, index;
    }

    /** `vector_item_remove`. */
    method Remove(index: nat, count: nat) returns (removed: nat)
      requires Valid()
      modifies this, items
      ensures Valid() && items == old(items)
      ensures shape == Edited(old(shape), Edit.Remove(index, count))
      ensures removed == |old(shape.items)| - |shape.items|
      ensures index > |old(shape.items)| ==> removed == 0 && shape == old(shape)
      ensures index <= |old(shape.items)| ==>
                && removed == (if index + count <= |old(shape.items)| then count else |old(shape.items)| - index)
                && shape == old(shape).(items := Cut(old(shape.items), index, count))
    {
      if index > itemCount {
        return 0;
      }
      removed := count;
      if itemCount - index < removed {
        removed := itemCount - index;
      }
      Close(index, removed);
    }

    /** The items behind a removed range are moved down over it. */
    method Close(index: nat, removed: nat)
      requires Valid() && index + removed <= itemCount
      modifies this, items
      ensures Valid() && items == old(items)
      ensures shape == old(shape).(items := Cut(old(shape.items), index, removed))
    {
      var toMove := itemCount - removed - index;
      if removed > 0 && toMove > 0 {
        ClosedGap(block, shape, index, removed);
        ghost var _ := MemMove(items, index, items, index + removed, toMove, block, block);
        block := Written(block, index, block[index + removed..itemCount]);
      } else {
        NoGap(block, shape, index, removed);
      }
      shape := shape.(items := Cut(shape.items, index, removed));
      itemCount := itemCount - removed;
    }

    /** `vector_item_insert`, from `count` items of `source` on. `room` says whether an allocation succeeds. */
    method Insert(index: nat, source: array<T>, first: nat, count: nat, room: bool)
      returns (inserted: nat, ghost taken: seq<T>)
      requires Valid()
      requires Accepted(shape, index, count, room) ==> first + count <= source.Length
      modifies this, items
      ensures Valid() && (items == old(items) || fresh(items))
      ensures if Accepted(old(shape), index, count, room)
              then inserted == |taken| == count && shape == Inserted(old(shape), index, taken, room)
              else inserted == 0 && shape == old(shape) && items == old(items)
      ensures inserted > 0 && (source != old(items) || items != old(items) || Clear(index, count, old(itemCount), first))
              ==> taken == old(source[first..first + count])
      ensures inserted > 0 && source == old(items) == items
              ==> taken == Shifted(old(block), index, count, old(itemCount))[first..first + count]
    {
      ghost var from := if source == items then block else source[..];
      inserted, taken := 0, [];
      if index > itemCount {
        return;
      }
      if count == 0 {
        return;
      }
      if MAX_COUNT - itemCount < count {
        return;
      }
      var newCount := itemCount + count;
      if physSize < newCount {
        if !room {
          return;
        }
        taken := from[first..first + count];
        Regrow(index, source, first, count, from);
      } else {
        if source == items && Clear(index, count, itemCount, first) {
          ClearSource(block, index, count, itemCount, first);
        }
        taken := Shuffle(index, source, first, count, from);
      }
      inserted := count;
    }

    /** The new contents, put together in a larger block; `read` counts the items that come from the old one. */
    method CopyOver(nu: array<T>, index: nat, source: array<T>, first: nat, count: nat, ghost from: seq<T>)
      returns (ghost joined: seq<T>, ghost read: nat)
      requires Valid() && first + count <= source.Length && index <= itemCount && Image(source, from)
      requires 0 < count && itemCount + count <= MAX_COUNT && physSize < itemCount + count
      requires nu != items && nu != source && nu.Length == Grown(itemCount + count)
      modifies nu
      ensures read == itemCount && Image(nu, joined)
      ensures joined == Joined(old(nu[..]), block[..index], from[first..first + count], block[index..itemCount])
    {
      ghost var raw, taken := nu[..], from[first..first + count];
      ghost var one := Written(raw, 0, block[..index]);
      ghost var two := Written(one, index, taken);
      joined, read := Joined(raw, block[..index], taken, block[index..itemCount]), 0;
      if index != 0 {
        read := MemMove(nu, 0, items, 0, index, raw, block);
      }
      ghost var _ := MemMove(nu, index, source, first, count, one, from);
      if index < itemCount {
        ghost var rest := MemMove(nu, index + count, items, index, itemCount - index, two, block);
        read := read + rest;
      }
    }

    method Fill(nu: array<T>, index: nat, source: array<T>, first: nat, count: nat, ghost from: seq<T>)
      returns (ghost joined: seq<T>, ghost read: nat)
      requires Valid() && first + count <= source.Length && index <= itemCount && Image(source, from)
      requires 0 < count && itemCount + count <= MAX_COUNT && physSize < itemCount + count
      requires nu != items && nu != source && nu.Length == Grown(itemCount + count)
      modifies nu
      ensures read == itemCount && Image(nu, joined)
      ensures Fits(joined, Inserted(shape, index, from[first..first + count], true))
    {
      PutTogether(nu[..], block, shape, index, from[first..first + count]);
      joined, read := CopyOver(nu, index, source, first, count, from);
    }

    /** The larger block: put together from the old one and the source. */
    method Regrow(index: nat, source: array<T>, first: nat, count: nat, ghost from: seq<T>)
      requires Valid() && first + count <= source.Length && index <= itemCount && Image(source, from)
      requires 0 < count && itemCount + count <= MAX_COUNT && physSize < itemCount + count
      modifies this
      ensures Valid() && fresh(items)
      ensures shape == Inserted(old(shape), index, from[first..first + count], true)
    {
      var newCount := itemCount + count;
      var q := newCount;
      q := q + (q / 4 + 16);
      var nu := new T[q];
      ghost var joined, read := Fill(nu, index, source, first, count, from);
      block, moved := joined, moved + read;
      shape := Inserted(shape, index, from[first..first + count], true);
      items := nu;
      physSize := q;
      itemCount := newCount;
      last := newCount;
    }

    /** The same block: the items from `index` on make room first. */
    method Shuffle(index: nat, source: array<T>, first: nat, count: nat, ghost from: seq<T>) returns (ghost taken: seq<T>)
      requires Valid() && items != null && first + count <= source.Length && index <= itemCount
      requires Image(source, from) && (source == items ==> from == block)
      requires 0 < count && itemCount + count <= MAX_COUNT && itemCount + count <= physSize
      modifies this, items
      ensures Valid() && items == old(items)
      ensures |taken| == count && shape == Inserted(old(shape), index, taken, true)
      ensures source != items ==> taken == from[first..first + count]
      ensures source == items ==> taken == Shifted(old(block), index, count, old(itemCount))[first..first + count]
    {
      ghost var shifted := Shifted(block, index, count, itemCount);
      ghost var read := if source == items then shifted else from;
      if index < itemCount {
        ghost var _ := MemMove(items, index + count, items, index, itemCount - index, block, block);
      }
      taken := read[first..first + count];
      ghost var _ := MemMove(items, index, source, first, count, shifted, read);
      FilledGap(block, shape, index, taken);
      block := Written(shifted, index, taken);
      shape := Inserted(shape, index, taken, true);
      itemCount := itemCount + count;
    }

    /** `vector_item_append`. */
    method Append(item: T, room: bool) returns (n: nat)
      requires Valid()
      modifies this, items
      ensures Valid() && (items == old(items) || fresh(items))
      ensures shape == Edited(old(shape), Edit.Insert(|old(shape.items)|, [item], room))
      ensures if |old(shape.items)| < 0x100000 && (|old(shape.items)| < old(physSize) || room)
              then n == |old(shape.items)| + 1 && shape.items == old(shape.items) + [item]
              else n == 0 && shape == old(shape)
    {
      var source := new T[1] [item];
      ghost var taken;
      n, taken := Insert(itemCount, source, 0, 1, room);
      assert n > 0 ==> taken == [item];
      if n == 0 {
        return 0;
      }
      n := itemCount;
    }

    /** `vector_deinit`. The recorded size of the block stays behind: unless there never was a block, the
        vector is of no use until it is initialised again. */
    method Deinit()
      requires Valid()
      modifies this
      ensures items == null && itemCount == 0 && physSize == old(physSize)
      ensures Valid() ==> old(items) == null
    {
      items := null;
      itemCount := 0;
    }
  }

  // ------------------------------------------------------------------------------------ vectors of pointers

  /** Elsewhere a vector of pointers is a sequence. Appending to it fails at the cap, and when memory runs out. */
  predicate Appends<X>(s: seq<X>, room: bool) {
    |s| < MAX_COUNT && room
  }

  /** `vector_item_append` on such a vector: the new length, or zero for failure. */
  method AppendTo<X>(s: seq<X>, x: X, room: bool) returns (s': seq<X>, n: nat)
    ensures Appends(s, room) ==> s' == s + [x] && n == |s| + 1
    ensures !Appends(s, room) ==> s' == s && n == 0
  {
    if |s| >= MAX_COUNT {
      return s, 0;
    }
    if !room {
      return s, 0;
    }
    s' := s + [x];
    n := |s'|;
  }
}
