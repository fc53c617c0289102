/** WorkStealingDeque of src/natsune/deque.py. Each method body runs under the
    deque's lock, so one call is one atomic step. */
module Deque {
  import opened Options
  import opened Bits

  datatype Popped<+A> = Empty | NoRoom | Task(task: A)

  /* ---- The sequence the deque stands for ---- */

  function PopSpec<A>(s: seq<A>, capacity: nat, reserve: nat): (Popped<A>, seq<A>) {
    if s == [] then (Empty, s)
    else if |s| - 1 >= capacity - reserve then (NoRoom, s)
    else (Task(s[|s| - 1]), s[..|s| - 1])
  }

  function StealSpec<A>(s: seq<A>): (Option<A>, seq<A>) {
    if s == [] then (None, s) else (Some(s[0]), s[1..])
  }

  /** The owner's end is the newest task, and the thieves' the oldest: what one
      operation takes away stands where it was. */
  lemma SpecsTakeEnds<A>(s: seq<A>, capacity: nat, reserve: nat)
    ensures var (r, rest) := PopSpec(s, capacity, reserve);
            && (r.Task? ==> s == rest + [r.task]) && (!r.Task? ==> rest == s)
            && (r.Empty? <==> s == []) && (r.NoRoom? <==> |s| > 0 && |s| - 1 >= capacity - reserve)
    ensures var (r, rest) := StealSpec(s);
            if r.Some? then s == [r.value] + rest else s == [] == rest
  {
    if s != [] {
      assert s == s[..|s| - 1] + [s[|s| - 1]] && s == [s[0]] + s[1..];
    }
  }

  /* Two live slots never share a cell. */
  lemma LiveSlotsDistinct(capacity: nat, i: nat, j: nat)
    requires capacity > 0 && i < j < i + capacity
    ensures i % capacity != j % capacity
  {
    if i % capacity == j % capacity {
      var qi, qj := i / capacity, j / capacity;
      assert j - i == (qj - qi) * capacity by {
        assert i == qi * capacity + i % capacity && j == qj * capacity + j % capacity;
        assert (qj - qi) * capacity == qj * capacity - qi * capacity;
      }
      if qj - qi >= 1 {
        AtLeastOnce(qj - qi, capacity);
      } else if qj - qi <= -1 {
        AtLeastOnce(qi - qj, capacity);
      }
    }
  }

  class WorkStealingDeque<A> {
    var left: nat
    var right: nat
    var store: array<Option<A>>
    const capacity: nat
    const maxReentrantPush: nat
    const wrapMask: nat

    // What the live slots hold, oldest first.
    ghost var Contents: seq<A>

    ghost predicate Valid()
      reads this, store
    {
      && store.Length == capacity == wrapMask + 1
      && 1 <= maxReentrantPush <= capacity
      && (exists k :: capacity == Pow2(k))
      && left <= right <= left + capacity
      && |Contents| == right - left
      && forall i {:trigger i % capacity} :: left <= i < right ==> store[i % capacity] == Some(Contents[i - left])
    }

    /** Rounds the hint up. It may be anything up to 2^64, the widest that the six
        shifts cover. `Make` does the checks. */
    constructor (storageHint: nat, reserve: nat)
      requires 1 <= reserve <= storageHint <= Pow2(64)
      ensures Valid() && fresh(store)
      ensures Contents == [] && maxReentrantPush == reserve
      ensures storageHint <= capacity
      ensures forall j: nat :: storageHint <= Pow2(j) ==> capacity <= Pow2(j)
    {
      hide Pow2, Or, Shr;
      var hint: nat := storageHint - 1;
      var i := 1;
      while i <= 32
        invariant i in {1, 2, 4, 8, 16, 32, 64}
        invariant Smeared(hint, i) == Smeared(storageHint - 1, 1)
        decreases 64 - i
      {
        hint := Or(hint, Shr(hint, i));
        i := 2 * i;
      }
      SmearRoundsUp(storageHint);
      capacity := hint + 1;
      wrapMask := hint;
      store := new Option<A>[hint + 1](_ => None);
      left, right, Contents := 0, 0, [];
      maxReentrantPush := reserve;
    }

    // Where a counter's slot is.
    method Slot(counter: nat) returns (index: nat)
      requires Valid()
      ensures index == counter % capacity < capacity
    {
      ghost var k :| capacity == Pow2(k);
      MaskIsModulo(counter, k);
      index := And(counter, wrapMask);
    }

    /** Appends, or fails the assertion when every slot is taken. */
    method Push(task: A) returns (ok: bool)
      requires Valid()
      modifies this`right, this`Contents, store
      ensures Valid()
      ensures ok <==> |old(Contents)| < capacity
      ensures Contents == if ok then old(Contents) + [task] else old(Contents)
    {
      ok := right - left < capacity;
      if ok {
        var index := Slot(right);
        forall i | left <= i < right ensures i % capacity != index {
          LiveSlotsDistinct(capacity, i, right);
        }
        right := right + 1;
        store[index] := Some(task);
        Contents := Contents + [task];
      }
    }

    /** Takes the newest task, unless popping would leave too little room for the
        pushes its execution may make. */
    method Pop() returns (r: Popped<A>)
      requires Valid()
      modifies this`left, this`right, this`Contents
      ensures Valid()
      ensures (r, Contents) == PopSpec(old(Contents), capacity, maxReentrantPush)
      ensures r.Task? ==> old(Contents) == Contents + [r.task]
      ensures !r.Task? ==> Contents == old(Contents)
      ensures r.Empty? <==> old(Contents) == []
      ensures r.NoRoom? <==> |old(Contents)| > 0 && |old(Contents)| - 1 >= capacity - maxReentrantPush
    {
      if right <= left {
        return Empty;
      }
      if right - left - 1 >= capacity - maxReentrantPush {
        return NoRoom;
      }
      if right - left == 1 {
        var index := Slot(left);
        left := left + 1;
        Contents := Contents[1..];
        return Task(store[index].value);
      }
      var index := Slot(right - 1);
      right := right - 1;
      Contents := Contents[..|Contents| - 1];
      return Task(store[index].value);
    }

    /** Takes the oldest task. */
    method Steal() returns (r: Option<A>)
      requires Valid()
      modifies this`left, this`Contents
      ensures Valid()
      ensures (r, Contents) == StealSpec(old(Contents))
      ensures if r.Some? then old(Contents) == [r.value] + Contents else old(Contents) == [] == Contents
    {
      if right <= left {
        return None;
      }
      var index := Slot(left);
      left := left + 1;
      Contents := Contents[1..];
      r := Some(store[index].value);
    }
  }

  // A Python list has fewer than 2^63 cells.
  const INDEX_BITS := 63

  /** The constructor with what it raises, modelled as null: its ValueError, and the
      OverflowError of a store too long to be a list. */
  method Make<A>(storageHint: int, reserve: int) returns (r: WorkStealingDeque?<A>)
    ensures r == null <==> storageHint < reserve || reserve < 1 || storageHint > Pow2(INDEX_BITS - 1)
    ensures r != null ==> fresh(r) && r.Valid() && r.Contents == [] && storageHint <= r.capacity
    ensures r != null ==> forall j: nat :: storageHint <= Pow2(j) ==> r.capacity <= Pow2(j)
  {
    hide Pow2;
    if storageHint < reserve || reserve < 1 {
      return null;
    }
    SmearStaysBelow(storageHint, INDEX_BITS - 1);
    if Smeared(storageHint - 1, 1) + 1 >= Pow2(INDEX_BITS) {
      return null;
    }
    Pow2Monotone(INDEX_BITS - 1, 64);
    r := new WorkStealingDeque<A>(storageHint, reserve);
  }

  /* ---- Any interleaving of locked operations ---- */

  datatype Call<A> = DoPush(task: A) | DoPop | DoSteal

  function Apply<A>(s: seq<A>, call: Call<A>, capacity: nat, reserve: nat): seq<A> {
    match call
    case DoPush(task) => if |s| < capacity then s + [task] else s
    case DoPop => PopSpec(s, capacity, reserve).1
    case DoSteal => StealSpec(s).1
  }

  function ApplyAll<A>(s: seq<A>, calls: seq<Call<A>>, capacity: nat, reserve: nat): seq<A> {
    if calls == [] then s
    else Apply(ApplyAll(s, calls[..|calls| - 1], capacity, reserve), calls[|calls| - 1], capacity, reserve)
  }

  function Pushes<A>(calls: seq<Call<A>>): nat {
    if calls == [] then 0
    else Pushes(calls[..|calls| - 1]) + if calls[|calls| - 1].DoPush? then 1 else 0
  }

  lemma {:induction false} PushesBound<A>(s: seq<A>, calls: seq<Call<A>>, capacity: nat, reserve: nat)
    ensures |ApplyAll(s, calls, capacity, reserve)| <= |s| + Pushes(calls)
    decreases |calls|
  {
    if calls != [] {
      PushesBound(s, calls[..|calls| - 1], capacity, reserve);
    }
  }

  /** After a successful pop, no push of the next max_reentrant_push overflows,
      whatever steals and pops come between. */
  lemma ReserveSuffices<A>(s: seq<A>, calls: seq<Call<A>>, capacity: nat, reserve: nat, i: nat)
    requires reserve <= capacity && PopSpec(s, capacity, reserve).0.Task?
    requires i < |calls| && calls[i].DoPush? && Pushes(calls[..i]) < reserve
    ensures |ApplyAll(PopSpec(s, capacity, reserve).1, calls[..i], capacity, reserve)| < capacity
  {
    PushesBound(PopSpec(s, capacity, reserve).1, calls[..i], capacity, reserve);
  }
}
