/**
 * A growable ring buffer used as a FIFO queue of non-null pointers. head is
 * the earliest used slot and tail the next free one; one slot always stays
 * free so that head == tail means empty. A slot holding no item is None (a
 * NULL pointer); a stored item is never NULL, which is why items are plain
 * values of T here.
 */
module RbQueue {
  import opened Wrappers

  const InitialSize: nat := 8

  /** The items of a run of slots that all hold one. */
  function Items<T>(slots: seq<Option<T>>): (r: seq<T>)
    requires forall k :: 0 <= k < |slots| ==> slots[k].Some?
    ensures |r| == |slots|
    ensures forall k :: 0 <= k < |r| ==> slots[k] == Some(r[k])
  {
    if |slots| == 0 then [] else [slots[0].value] + Items(slots[1..])
  }

  lemma {:induction false} ItemsAppend<T>(a: seq<Option<T>>, b: seq<Option<T>>)
    requires forall k :: 0 <= k < |a| ==> a[k].Some?
    requires forall k :: 0 <= k < |b| ==> b[k].Some?
    ensures Items(a + b) == Items(a) + Items(b)
  {
    var r := Items(a + b);
    var s := Items(a) + Items(b);
    assert |r| == |s|;
    forall k | 0 <= k < |r| ensures r[k] == s[k] {
      if k < |a| {
        assert (a + b)[k] == a[k];
      } else {
        assert (a + b)[k] == b[k - |a|];
      }
    }
  }

  /** k mod c for k < 2c: the index k wrapped once around a buffer of c slots. */
  function Wrap(k: nat, c: nat): (r: nat)
    requires k < 2 * c
    ensures r < c
  {
    if k < c then k else k - c
  }

  /** The slot i places after h in a buffer of c slots. */
  function Index(h: nat, i: nat, c: nat): (r: nat)
    requires h < c && i < c
    ensures r < c
  {
    Wrap(h + i, c)
  }

  /** Wrap is the remainder the C code computes with %. */
  lemma WrapIsMod(k: nat, c: nat)
    requires k < 2 * c
    ensures Wrap(k, c) == k % c
  {
    if k >= c {
      assert k == c * 1 + (k - c);
    }
  }

  /**
   * memcpy(dst + to, src + from, count * sizeof(T)): copies count slots and
   * leaves every other slot of dst as it was. The two ranges do not overlap.
   */
  method Copy<T>(dst: array<T>, to: nat, src: array<T>, from: nat, count: nat)
    requires to + count <= dst.Length && from + count <= src.Length
    requires dst != src || to + count <= from || from + count <= to
    modifies dst
    ensures forall k :: to <= k < to + count ==> dst[k] == old(src[k - to + from])
    ensures forall k :: 0 <= k < dst.Length && !(to <= k < to + count) ==> dst[k] == old(dst[k])
  {
    var i := 0;
    while i < count
      invariant 0 <= i <= count
      invariant forall k :: to <= k < to + i ==> dst[k] == old(src[k - to + from])
      invariant forall k :: 0 <= k < dst.Length && !(to <= k < to + i) ==> dst[k] == old(dst[k])
      invariant forall k :: from <= k < from + count ==> src[k] == old(src[k])
    {
      dst[to + i] := src[from + i];
      i := i + 1;
    }
  }

  class Rbq<T> {
    /** The items in the queue, earliest first. */
    ghost var Contents: seq<T>

    var head: nat
    var tail: nat
    var capacity: nat
    var data: array<Option<T>>

    /**
     * head and tail index the buffer, the i-th item sits i slots after head
     * (wrapping at the end of the buffer) and tail is the slot after the last.
     */
    ghost predicate Valid()
      reads this, data
    {
      && data.Length == capacity
      && 0 < capacity
      && head < capacity && tail < capacity
      && |Contents| == Used()
      && (forall i :: 0 <= i < |Contents| ==> data[Index(head, i, capacity)] == Some(Contents[i]))
    }

    /** rbq_create and rbq_init: an empty queue of eight NULL slots. */
    constructor ()
      ensures Valid() && fresh(data)
      ensures Contents == []
      ensures head == 0 && tail == 0 && capacity == InitialSize
      ensures forall k :: 0 <= k < data.Length ==> data[k] == None
    {
      head := 0;
      tail := 0;
      data := new Option<T>[InitialSize](_ => None);
      capacity := InitialSize;
      Contents := [];
    }

    /** Number of used slots: (tail - head) mod capacity, so at most capacity - 1. */
    function Used(): (r: nat)
      reads this
      requires head < capacity && tail < capacity
      ensures r < capacity
      ensures Index(head, r, capacity) == tail
    {
      if tail >= head then tail - head else tail + capacity - head
    }

    /** Number of slots a push can still fill without growing. */
    function Avail(): (r: nat)
      reads this
      requires head < capacity && tail < capacity
      ensures r + Used() + 1 == capacity
    {
      capacity - Used() - 1
    }

    /**
     * Doubles the buffer. Items already contiguous stay where they are; when
     * they wrap, the part at the start of the buffer is copied to just after
     * the old end.
     */
    method Grow()
      requires Valid()
      modifies this
      ensures Valid() && fresh(data)
      ensures Contents == old(Contents)
      ensures capacity == 2 * old(capacity) && head == old(head)
      ensures tail == if old(tail) >= old(head) then old(tail) else old(capacity) + old(tail)
    {
      var newCapacity := 2 * capacity;
      var newData := new Option<T>[newCapacity](_ => None);
      Copy(newData, 0, data, 0, capacity);
      ghost var before := data;
      data := newData;
      if tail >= head {
        // the used slots are already contiguous
      } else {
        Copy(data, capacity, data, 0, tail);
        tail := capacity + tail;
      }
      forall i | 0 <= i < |Contents| ensures data[Index(head, i, newCapacity)] == Some(Contents[i]) {
        assert before[Index(head, i, capacity)] == Some(Contents[i]);
      }
      capacity := newCapacity;
    }

    /** Appends item at the back, growing first when the buffer is full. */
    method Push(item: T)
      requires Valid()
      modifies this, data
      ensures Valid()
      ensures Contents == old(Contents) + [item]
      ensures head == old(head) && (data == old(data) || fresh(data))
      ensures capacity == if |old(Contents)| + 1 == old(capacity) then 2 * old(capacity) else old(capacity)
    {
      var oldTail := tail;
      var newTail := (tail + 1) % capacity;
      WrapIsMod(tail + 1, capacity);
      if newTail == head {
        Grow();
        WrapIsMod(tail + 1, capacity);
        newTail := (tail + 1) % capacity;
        oldTail := tail;
      }
      data[oldTail] := Some(item);
      tail := newTail;
      Contents := Contents + [item];
    }

    /**
     * The front item, or None on an empty queue (which is left as it is);
     * the popped slot is cleared and head moves on.
     */
    method Pop() returns (r: Option<T>)
      requires Valid()
      modifies this, data
      ensures Valid() && data == old(data) && capacity == old(capacity) && tail == old(tail)
      ensures old(Contents) == [] ==> r == None && Contents == [] && head == old(head) && unchanged(data)
      ensures old(Contents) != [] ==>
        && r == Some(old(Contents)[0])
        && Contents == old(Contents)[1..]
        && data[old(head)] == None
        && head == (old(head) + 1) % capacity
    {
      if head == tail {
        return None;
      }
      assert data[Index(head, 0, capacity)] == Some(Contents[0]);
      r := data[head];
      data[head] := None;
      WrapIsMod(head + 1, capacity);
      head := (head + 1) % capacity;
      Contents := Contents[1..];
      forall i | 0 <= i < |Contents| ensures data[Index(head, i, capacity)] == Some(Contents[i]) {
        assert Index(head, i, capacity) == Index(old(head), i + 1, capacity);
      }
    }

    /** Forgets the first n items (their slots are not cleared). */
    method DropN(n: nat)
      requires Valid()
      requires n <= |Contents|
      modifies this
      ensures Valid()
      ensures Contents == old(Contents)[n..]
      ensures head == (old(head) + n) % capacity
      ensures tail == old(tail) && capacity == old(capacity) && data == old(data)
    {
      WrapIsMod(head + n, capacity);
      head := (head + n) % capacity;
      Contents := Contents[n..];
      forall i | 0 <= i < |Contents| ensures data[Index(head, i, capacity)] == Some(Contents[i]) {
        assert Index(head, i, capacity) == Index(old(head), i + n, capacity);
      }
    }

    /**
     * The slots from..from + n lie apart from the n slots written from tail
     * on (wrapping at the end of the buffer), so a run can be copied from
     * this queue's own buffer.
     */
    predicate RunApart(from: nat, n: nat)
      reads this
    {
      if tail + n > capacity then from + n <= tail && tail + n - capacity <= from
      else from + n <= tail || tail + n <= from
    }

    /**
     * The two memcpy calls of rbq_push_n: src[from..from + n] written from
     * tail on, wrapping at the end of the buffer; no other slot changes. src
     * may be this queue's own buffer when the run lies apart from the slots
     * written.
     */
    method WriteRun(src: array<Option<T>>, from: nat, n: nat)
      requires data.Length == capacity && tail < capacity
      requires from + n <= src.Length && n <= capacity
      requires src != data || RunApart(from, n)
      modifies data
      ensures forall j :: 0 <= j < n ==> data[Index(tail, j, capacity)] == old(src[from + j])
      ensures forall k :: 0 <= k < capacity && !(tail <= k < tail + n) && !(k < tail + n - capacity) ==> data[k] == old(data[k])
    {
      if tail + n > capacity {
        var first := capacity - tail;
        Copy(data, tail, src, from, first);
        var rest := n - first;
        Copy(data, 0, src, from + first, rest);
      } else {
        Copy(data, tail, src, from, n);
      }
    }

    /**
     * Copies the n items src[from..from + n] in after the back; there must be
     * room for them already.
     */
    method PushN(src: array<Option<T>>, from: nat, n: nat)
      requires Valid() && src != data
      requires from + n <= src.Length
      requires forall k :: from <= k < from + n ==> src[k].Some?
      requires n <= Avail()
      modifies this, data
      ensures Valid()
      ensures Contents == old(Contents) + Items(src[from..from + n])
      ensures head == old(head) && capacity == old(capacity) && data == old(data)
    {
      ghost var items := Items(src[from..from + n]);
      ghost var used := |Contents|;
      WriteRun(src, from, n);
      WrapIsMod(tail + n, capacity);
      tail := (tail + n) % capacity;
      Contents := Contents + items;
      forall i | 0 <= i < |Contents| ensures data[Index(head, i, capacity)] == Some(Contents[i]) {
        if i >= used {
          assert Index(head, i, capacity) == Index(old(tail), i - used, capacity);
          assert src[from..from + n][i - used] == src[from + (i - used)];
        } else {
          assert old(data[Index(head, i, capacity)]) == Some(Contents[i]);
        }
      }
    }

    /**
     * One rbq_push_n call of rbq_append_n: the items i .. i + m of src, which
     * lie in one unbroken run of src's buffer, copied to the back.
     */
    method PushRun(src: Rbq<T>, i: nat, m: nat)
      requires Valid() && src.Valid()
      requires src != this && src.data != data
      requires i + m <= |src.Contents| && i < src.capacity
      requires Index(src.head, i, src.capacity) + m <= src.capacity
      requires i == 0 || Index(src.head, i, src.capacity) == 0
      requires m <= Avail()
      modifies this, data
      ensures Valid() && src.Valid()
      ensures Contents == old(Contents) + src.Contents[i..i + m]
      ensures capacity == old(capacity) && data == old(data)
    {
      SourceRun(src, i, m);
      PushN(src.data, Index(src.head, i, src.capacity), m);
    }

    /**
     * The copying half of rbq_append_n: the first n items of src pushed to
     * the back in one run, or two when they wrap in src's buffer; src is
     * left as it was.
     */
    method CopyFront(src: Rbq<T>, n: nat)
      requires Valid() && src.Valid()
      requires src != this && src.data != data
      requires n <= |src.Contents| && n <= Avail()
      modifies this, data
      ensures Valid() && src.Valid()
      ensures Contents == old(Contents) + src.Contents[..n]
      ensures capacity == old(capacity) && data == old(data)
    {
      ghost var moved := src.Contents[..n];
      WrapIsMod(src.head + n, src.capacity);
      var tmpTail := (src.head + n) % src.capacity;
      if tmpTail >= src.head {
        PushRun(src, 0, tmpTail - src.head);
        assert src.Contents[0..tmpTail - src.head] == moved;
      } else {
        var m := src.capacity - src.head;
        PushRun(src, 0, m);
        PushRun(src, m, tmpTail);
        assert src.Contents[0..m] + src.Contents[m..m + tmpTail] == moved;
      }
    }

    /**
     * rbq_push_n with this queue's own buffer as the source: the items
     * i .. i + m, which lie in one unbroken run of used slots, are copied
     * into the free slots after the back.
     */
    method PushOwnRun(i: nat, m: nat)
      requires Valid()
      requires i + m <= |Contents|
      requires Index(head, i, capacity) + m <= capacity
      requires i == 0 || Index(head, i, capacity) == 0
      requires m <= Avail()
      modifies this, data
      ensures Valid()
      ensures Contents == old(Contents) + old(Contents)[i..i + m]
      ensures head == old(head) && capacity == old(capacity) && data == old(data)
    {
      WriteOwnRun(i, m);
      AdvanceTail(m, Contents[i..i + m]);
    }

    /**
     * The two memcpy calls of rbq_push_n reading this queue's own used
     * slots, which lie apart from the free slots written: the items
     * i .. i + m land in the free slots from tail on, wrapping at the end
     * of the buffer, and every item stays where it was.
     */
    method WriteOwnRun(i: nat, m: nat)
      requires Valid()
      requires i + m <= |Contents|
      requires Index(head, i, capacity) + m <= capacity
      requires i == 0 || Index(head, i, capacity) == 0
      requires m <= Avail()
      modifies data
      ensures Valid()
      ensures forall j :: 0 <= j < m ==> data[Index(tail, j, capacity)] == Some(Contents[i + j])
    {
      var s := Index(head, i, capacity);
      forall k | s <= k < s + m ensures data[k] == Some(Contents[i + (k - s)]) {
        assert Index(head, i + (k - s), capacity) == k;
      }
      OwnRunApart(i, m);
      WriteRun(data, s, m);
      forall k | 0 <= k < |Contents| ensures data[Index(head, k, capacity)] == Some(Contents[k]) {
        UsedSlotKept(head, tail, capacity, |Contents|, m, k);
      }
    }

    /**
     * The tail update of rbq_push_n once the m items of run sit in the
     * slots from tail on: they become the last items of the queue.
     */
    method AdvanceTail(m: nat, ghost run: seq<T>)
      requires Valid() && |run| == m && m <= Avail()
      requires forall j :: 0 <= j < m ==> data[Index(tail, j, capacity)] == Some(run[j])
      modifies this
      ensures Valid()
      ensures Contents == old(Contents) + run
      ensures head == old(head) && capacity == old(capacity) && data == old(data)
    {
      ghost var used := |Contents|;
      PushedTail(head, tail, capacity, used, m);
      tail := (tail + m) % capacity;
      Contents := Contents + run;
      UsedIs(used + m);
      forall k | 0 <= k < |Contents| ensures data[Index(head, k, capacity)] == Some(Contents[k]) {
        if k >= used {
          assert Index(head, k, capacity) == Index(old(tail), k - used, capacity);
        }
      }
    }

    /** Used() is the distance from head to tail. */
    lemma UsedIs(u: nat)
      requires head < capacity && tail < capacity
      requires (if tail >= head then tail - head else tail + capacity - head) == u
      ensures Used() == u
    {
    }

    /**
     * A run of items that does not wrap occupies used slots, which lie apart
     * from the free slots a push of at most Avail() items writes.
     */
    lemma OwnRunApart(i: nat, m: nat)
      requires head < capacity && tail < capacity
      requires i + m <= Used() && m <= Avail()
      requires Index(head, i, capacity) + m <= capacity
      requires i == 0 || Index(head, i, capacity) == 0
      ensures RunApart(Index(head, i, capacity), m)
    {
    }

    /**
     * The copying half of rbq_append_n(q, q, n): the first n items of this
     * queue pushed again at its back, in one run or in two when they wrap.
     */
    method CopyOwnFront(n: nat)
      requires Valid()
      requires n <= |Contents| && n <= Avail()
      modifies this, data
      ensures Valid()
      ensures Contents == old(Contents) + old(Contents)[..n]
      ensures head == old(head) && capacity == old(capacity) && data == old(data)
    {
      ghost var moved := Contents[..n];
      WrapIsMod(head + n, capacity);
      var tmpTail := (head + n) % capacity;
      if tmpTail >= head {
        PushOwnRun(0, tmpTail - head);
        assert old(Contents)[0..tmpTail - head] == moved;
      } else {
        var m := capacity - head;
        PushOwnRun(0, m);
        ghost var middle := Contents;
        assert middle[m..m + tmpTail] == old(Contents)[m..m + tmpTail];
        PushOwnRun(m, tmpTail);
        assert old(Contents)[0..m] + old(Contents)[m..m + tmpTail] == moved;
      }
    }

    /**
     * Moves the first n items of src to the back of this queue, growing this
     * queue until they fit. src must hold at least n items. When src is this
     * queue, its first n items go round to its back.
     */
    method AppendN(src: Rbq<T>, n: nat)
      requires Valid() && src.Valid()
      requires src != this ==> src.data != data
      requires n <= |src.Contents|
      modifies this, data, src
      ensures Valid() && src.Valid()
      ensures src != this ==> Contents == old(Contents) + old(src.Contents)[..n]
      ensures src != this ==> src.Contents == old(src.Contents)[n..]
      ensures src == this ==> Contents == old(Contents)[n..] + old(Contents)[..n]
    {
      while Avail() < n
        invariant Valid() && src.Valid()
        invariant Contents == old(Contents)
        invariant src != this ==> src.data != data
        invariant data == old(data) || fresh(data)
        invariant src.Contents == old(src.Contents) && src.head == old(src.head)
        decreases n - Avail()
      {
        Grow();
      }
      if src == this {
        CopyOwnFront(n);
        DropN(n);
        assert (old(Contents) + old(Contents)[..n])[n..] == old(Contents)[n..] + old(Contents)[..n];
      } else {
        CopyFront(src, n);
        src.DropN(n);
      }
    }

    /**
     * rbq_append: moves every item of src to the back of this queue; a queue
     * appended to itself ends as it began.
     */
    method Append(src: Rbq<T>)
      requires Valid() && src.Valid()
      requires src != this ==> src.data != data
      modifies this, data, src
      ensures Valid() && src.Valid()
      ensures src != this ==> Contents == old(Contents) + old(src.Contents)
      ensures src != this ==> src.Contents == []
      ensures src == this ==> Contents == old(Contents)
    {
      AppendN(src, src.Used());
      if src == this {
        assert old(Contents)[|old(Contents)|..] + old(Contents)[..|old(Contents)|] == old(Contents);
      }
    }
  }

  /**
   * Moving the tail on by m after u items leaves u + m items between head
   * and tail, counted as Used() counts them.
   */
  lemma PushedTail(h: nat, t: nat, c: nat, u: nat, m: nat)
    requires h < c && t < c && u + m < c && Index(h, u, c) == t
    ensures (t + m) % c < c && Index(h, u + m, c) == (t + m) % c
    ensures var t' := (t + m) % c; (if t' >= h then t' - h else t' + c - h) == u + m
  {
    WrapIsMod(t + m, c);
  }

  /**
   * The slot of an item lies outside the m free slots written from the tail
   * on when the queue has room for them.
   */
  lemma UsedSlotKept(h: nat, t: nat, c: nat, u: nat, m: nat, k: nat)
    requires h < c && t < c && u + m < c && Index(h, u, c) == t && k < u
    ensures var x := Index(h, k, c); !(t <= x < t + m) && !(x < t + m - c)
  {
  }

  /**
   * A run of the items of q that does not wrap: items i .. i + m sit in the
   * slots from Index(q.head, i, q.capacity) on.
   */
  lemma SourceRun<T>(q: Rbq<T>, i: nat, m: nat)
    requires q.Valid()
    requires i + m <= |q.Contents|
    requires i < q.capacity
    requires Index(q.head, i, q.capacity) + m <= q.capacity
    requires i == 0 || Index(q.head, i, q.capacity) == 0
    ensures var s := Index(q.head, i, q.capacity);
            && (forall k :: s <= k < s + m ==> q.data[k].Some?)
            && Items(q.data[s..s + m]) == q.Contents[i..i + m]
  {
    var s := Index(q.head, i, q.capacity);
    var run := q.data[s..s + m];
    forall j | 0 <= j < m ensures run[j] == Some(q.Contents[i + j]) {
      assert Index(q.head, i + j, q.capacity) == s + j;
    }
    var r := Items(run);
    assert forall j | 0 <= j < m :: r[j] == q.Contents[i..i + m][j];
  }
}

module RbQueueLaws {
  import opened Wrappers
  import opened RbQueue

  /** rbq_used is (tail - head) mod capacity, taken as a non-negative remainder. */
  lemma UsedIsMod<T>(q: Rbq<T>)
    requires q.head < q.capacity && q.tail < q.capacity
    ensures q.Used() == (q.tail - q.head) % q.capacity
  {
    var d := q.tail - q.head;
    if q.tail >= q.head {
      assert d == q.capacity * 0 + d;
    } else {
      assert d == q.capacity * (-1) + (d + q.capacity);
    }
  }

  /**
   * Pushes every item onto a new queue and then pops as many times: the
   * items come out in the order they went in, the queue growing as needed.
   */
  method PushAllPopAll<T>(items: seq<T>) returns (popped: seq<T>)
    ensures popped == items
  {
    var q := new Rbq<T>();
    var i := 0;
    while i < |items|
      invariant 0 <= i <= |items|
      invariant fresh(q) && fresh(q.data)
      invariant q.Valid() && q.Contents == items[..i]
    {
      q.Push(items[i]);
      i := i + 1;
      assert items[..i] == items[..i - 1] + [items[i - 1]];
    }
    popped := [];
    i := 0;
    while i < |items|
      invariant 0 <= i <= |items|
      invariant fresh(q) && fresh(q.data)
      invariant q.Valid() && q.Contents == items[i..]
      invariant popped == items[..i]
    {
      var r := q.Pop();
      popped := popped + [r.value];
      i := i + 1;
      assert items[..i] == items[..i - 1] + [items[i - 1]];
    }
    var r := q.Pop();
    assert r == None;
  }
}
