/** The ring buffer of recent transactions: a fast form of the tail of an ever-growing log. */
module RecentTransactionsBuffer {
  import opened Seqs

  /** The last `n` items of the log, oldest first. */
  function Tail<T>(log: seq<T>, n: nat): (r: seq<T>)
    ensures |r| == if |log| <= n then |log| else n
    ensures forall i :: 0 <= i < |r| ==> r[i] == log[|log| - |r| + i]
  {
    if |log| <= n then log else log[|log| - n..]
  }

  function RotateLeft<T>(s: seq<T>, k: nat): seq<T>
    requires k <= |s|
  {
    s[k..] + s[..k]
  }

  class RecentTransactions<T> {
    var inner: seq<T>
    var writeIdx: nat
    const capacity: nat
    ghost var log: seq<T>

    /** Reading the buffer from the write position on, and then from the front, gives the
        last items pushed. */
    ghost predicate Valid()
      reads this
    {
      && capacity > 0
      && writeIdx == |log|
      && (|log| <= capacity ==> inner == log)
      && (|log| >= capacity ==> |inner| == capacity && RotateLeft(inner, writeIdx % capacity) == Tail(log, capacity))
    }

    constructor (capacity: nat)
      requires capacity > 0
      ensures Valid() && log == [] && this.capacity == capacity
    {
      this.capacity := capacity;
      inner, writeIdx, log := [], 0, [];
    }

    method Push(item: T)
      requires Valid()
      modifies this
      ensures Valid() && log == old(log) + [item]
    {
      hide RotateLeft, Tail;
      if |inner| < capacity {
        inner := inner + [item];
        JustFull(inner, capacity);
      } else {
        NextSlot(|log|, capacity);
        Overwrite(inner, log, capacity, writeIdx % capacity, item);
        inner := inner[writeIdx % capacity := item];
      }
      writeIdx := writeIdx + 1;
      log := log + [item];
    }

    /** The items kept, oldest first: exactly the last `capacity` pushed, or all if there are fewer. */
    method Get() returns (items: seq<T>)
      requires Valid()
      ensures items == Tail(log, capacity)
    {
      if |inner| < capacity {
        assert writeIdx % capacity == writeIdx;
        assert RotateLeft(inner, writeIdx) == inner;
      }
      items := RotateLeft(inner, writeIdx % capacity);
    }
  }

  /** A buffer that has just become full starts at its front. */
  lemma JustFull<T>(log: seq<T>, capacity: nat)
    requires capacity > 0 && |log| <= capacity
    ensures |log| == capacity ==> RotateLeft(log, |log| % capacity) == Tail(log, capacity)
  {
    if |log| == capacity {
      ModUnique(capacity, 1, 0, capacity);
      assert RotateLeft(log, 0) == log;
    }
  }

  /** The write position after one more push. */
  lemma NextSlot(n: nat, capacity: nat)
    requires capacity > 0
    ensures (n + 1) % capacity == if n % capacity + 1 == capacity then 0 else n % capacity + 1
  {
    var q, r := n / capacity, n % capacity;
    assert n + 1 == q * capacity + (r + 1);
    if r + 1 == capacity {
      assert n + 1 == (q + 1) * capacity;
      ModUnique(n + 1, q + 1, 0, capacity);
    } else {
      ModUnique(n + 1, q, r + 1, capacity);
    }
  }

  lemma ModUnique(x: nat, lap: int, slot: nat, capacity: nat)
    requires capacity > 0 && slot < capacity && x == lap * capacity + slot
    ensures x % capacity == slot
  {
    var d := x / capacity - lap;
    assert capacity * d == slot - x % capacity;
    NoMultipleBetween(d, capacity);
  }

  lemma NoMultipleBetween(d: int, capacity: int)
    requires capacity > 0 && -capacity < capacity * d < capacity
    ensures d == 0
  {}

  lemma RotateOverwritten<T>(inner: seq<T>, k: nat, item: T)
    requires k < |inner|
    ensures RotateLeft(inner[k := item], if k + 1 == |inner| then 0 else k + 1) == inner[k + 1..] + inner[..k] + [item]
  {
    var after := inner[k := item];
    assert after[k + 1..] == inner[k + 1..];
    assert after[..k + 1] == inner[..k] + [item];
    if k + 1 == |inner| {
      assert after[0..] == after[..k + 1];
      assert after[..0] == [];
    } else {
      ConcatAssociative(inner[k + 1..], inner[..k], [item]);
    }
  }

  lemma TailSlides<T>(log: seq<T>, capacity: nat, item: T)
    requires 0 < capacity <= |log|
    ensures Tail(log + [item], capacity) == Tail(log, capacity)[1..] + [item]
  {}

  lemma RotateHead<T>(inner: seq<T>, k: nat)
    requires k < |inner|
    ensures RotateLeft(inner, k)[1..] == inner[k + 1..] + inner[..k]
  {}

  /** Overwriting the oldest item of a full buffer moves the window by one. */
  lemma Overwrite<T>(inner: seq<T>, log: seq<T>, capacity: nat, k: nat, item: T)
    requires k < capacity == |inner| <= |log|
    requires RotateLeft(inner, k) == Tail(log, capacity)
    ensures RotateLeft(inner[k := item], if k + 1 == capacity then 0 else k + 1) == Tail(log + [item], capacity)
  {
    hide RotateLeft, Tail;
    RotateOverwritten(inner, k, item);
    RotateHead(inner, k);
    TailSlides(log, capacity, item);
  }
}
